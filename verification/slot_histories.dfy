/**
 What a slot of the table holds after any program, also one whose live stubs share slots: its contents follow from the
 last statement that touched it, and from what it held when the mock of that statement was created.
 */
module SlotHistories {
  import opened Bytes
  import opened HookLists
  import opened Machine
  import opened Lifetimes
  import opened Resets
  import opened Programs
  import Got
  import GotRuns

  // ---- one slot and a list of hooks ----

  lemma {:induction false} UnlistedStays(table: seq<Got.Fn>, hooks: seq<GotRuns.Hook>, x: nat)
    requires GotRuns.HooksIn(table, hooks) && x < |table| && !Listed(hooks, x)
    ensures HookAll(table, hooks).0[x] == table[x]
  {
    if hooks != [] {
      var n := |hooks| - 1;
      ListedLast(hooks, x);
      UnlistedStays(table, hooks[..n], x);
      var before := HookAll(table, hooks[..n]).0;
      Got.PatchedSlot(before, Got.Fresh(hooks[n].places), hooks[n].trampoline, |hooks[n].places|, x);
      HitsPlaces(hooks[n].places, x);
    }
  }

  /** The table after the last hook is undone, too. */
  lemma UndoneLast(table: seq<Got.Fn>, now: seq<Got.Fn>, hooks: seq<GotRuns.Hook>)
    requires GotRuns.HooksIn(table, hooks) && |now| == |table| && hooks != []
    ensures var n := |hooks| - 1;
      var (before, stubs) := HookAll(table, hooks[..n]);
      var stub := Got.Create(before, hooks[n].places, hooks[n].trampoline).1;
      && StubsIn(now, HookAll(table, hooks).1) && StubsIn(now, stubs)
      && UnhookAll(now, HookAll(table, hooks).1) == Got.Destroy(UnhookAll(now, stubs), stub)
  {
    hide Got.Create, Got.Destroy;
    var n := |hooks| - 1;
    var (before, stubs) := HookAll(table, hooks[..n]);
    var (after, stub) := Got.Create(before, hooks[n].places, hooks[n].trampoline);
    assert HookAll(table, hooks).1 == stubs + [stub];
    UnhookMore(now, stubs, [stub]);
    UnhookSingle(UnhookAll(now, stubs), stub);
  }

  /** A slot listed once gets back what it held before the hooks; a slot not listed keeps what it holds. */
  lemma {:induction false} UndoneSingly(table: seq<Got.Fn>, now: seq<Got.Fn>, hooks: seq<GotRuns.Hook>, x: nat)
    requires GotRuns.HooksIn(table, hooks) && x < |table| == |now| && !Doubled(hooks, x)
    ensures StubsIn(now, HookAll(table, hooks).1)
    ensures UnhookAll(now, HookAll(table, hooks).1)[x] == if Listed(hooks, x) then table[x] else now[x]
  {
    if hooks != [] {
      hide Got.Create, Got.Destroy, HookAll;
      var n := |hooks| - 1;
      var (before, stubs) := HookAll(table, hooks[..n]);
      UndoneLast(table, now, hooks);
      ListedLast(hooks, x);
      UndoneSingly(table, now, hooks[..n], x);
      if x in hooks[n].places {
        LastUndone(before, UnhookAll(now, stubs), hooks[n], x);
        UnlistedStays(table, hooks[..n], x);
      } else {
        OtherSlot(before, UnhookAll(now, stubs), hooks[n], x);
      }
    }
  }

  /** A slot listed twice is left with a trampoline. */
  lemma {:induction false} UndoneDoubled(table: seq<Got.Fn>, now: seq<Got.Fn>, hooks: seq<GotRuns.Hook>, x: nat)
    returns (h: nat)
    requires GotRuns.HooksIn(table, hooks) && x < |table| == |now| && Doubled(hooks, x)
    ensures StubsIn(now, HookAll(table, hooks).1)
    ensures h < |hooks| && UnhookAll(now, HookAll(table, hooks).1)[x] == hooks[h].trampoline
  {
    hide Got.Create, Got.Destroy, HookAll;
    var n := |hooks| - 1;
    var (before, stubs) := HookAll(table, hooks[..n]);
    UndoneLast(table, now, hooks);
    if x in hooks[n].places {
      LastUndone(before, UnhookAll(now, stubs), hooks[n], x);
      if ListedTwice(hooks[n].places, x) {
        h := n;
      } else {
        if Doubled(hooks[..n], x) {
          DoubledIsListed(hooks[..n], x);
        }
        h := PatchedHoldsTrampoline(table, hooks[..n], x);
      }
    } else {
      OtherSlot(before, UnhookAll(now, stubs), hooks[n], x);
      h := UndoneDoubled(table, now, hooks[..n], x);
    }
  }

  // ---- over programs ----

  /** The hooks of mock `k` are what hooking its plan made of the table before its creation, statement `i`. */
  ghost predicate CreatedAt(start: Progress, ps: seq<Statement>, k: nat, i: nat) {
    && i < |ps| && ps[i].Create?
    && var before, s, c := After(start, ps[..i]), After(start, ps), ps[i].setup;
       && |before.setups| == k < |s.setups| && s.setups[k] == c && |before.table| == |s.table|
       && GotRuns.HooksIn(before.table, Plan(c))
       && (k in s.live ==> s.live[k] == HookAll(before.table, Plan(c)).1)
  }

  lemma {:induction false} TableSize(start: Progress, ps: seq<Statement>)
    ensures |After(start, ps).table| == |start.table|
  {
    if ps != [] {
      TableSize(start, ps[..|ps| - 1]);
    }
  }

  /** A statement leaves the other mocks' hooks alone. */
  lemma NextKeeps(sys: System, s: Progress, p: Statement, k: nat)
    requires Sound(s) && Allowed(sys, s, p, 1) && k in Next(s, p).live
    ensures |Next(s, p).table| == |s.table| && s.setups <= Next(s, p).setups
    ensures if p.Create? && k == |s.setups| then
              && GotRuns.HooksIn(s.table, Plan(p.setup)) && k !in s.live && k < |Next(s, p).setups|
              && Next(s, p).setups[k] == p.setup && Next(s, p).live[k] == HookAll(s.table, Plan(p.setup)).1
            else k in s.live && k < |s.setups| && Next(s, p).live[k] == s.live[k]
  {
    LiveSetups(s);
    match p
    case Create(c) =>
      hide Allowed, Sound, HookAll, Plan, Next;
      NextCreation(sys, s, c, 1);
    case Do(op, _) =>
    case Reset(l, r) =>
      assert HooksMatch(s, l);
      hide Allowed, Sound, HookAll, Plan, Next;
      NextReset(s, l, r);
  }

  lemma AfterLast(start: Progress, ps: seq<Statement>)
    requires ps != []
    ensures After(start, ps) == Next(After(start, ps[..|ps| - 1]), ps[|ps| - 1])
  {
  }

  lemma StillCreatedAt(sys: System, start: Progress, ps: seq<Statement>, k: nat, i: nat)
    requires ps != [] && CreatedAt(start, ps[..|ps| - 1], k, i)
    requires Sound(After(start, ps[..|ps| - 1])) && Allowed(sys, After(start, ps[..|ps| - 1]), ps[|ps| - 1], 1)
    requires k in After(start, ps[..|ps| - 1]).live && k in After(start, ps).live
    ensures CreatedAt(start, ps, k, i)
  {
    hide Sound, Allowed, Next, HookAll, Plan, After;
    var n := |ps| - 1;
    assert ps[..n][..i] == ps[..i] && ps[..n][i] == ps[i];
    AfterLast(start, ps);
    NextKeeps(sys, After(start, ps[..n]), ps[n], k);
    TableSize(start, ps[..n]);
    TableSize(start, ps);
  }

  lemma JustCreated(sys: System, start: Progress, ps: seq<Statement>)
    requires ps != [] && ps[|ps| - 1].Create? && Sound(After(start, ps[..|ps| - 1]))
    requires Allowed(sys, After(start, ps[..|ps| - 1]), ps[|ps| - 1], 1)
    requires |After(start, ps[..|ps| - 1]).setups| in After(start, ps).live
    ensures CreatedAt(start, ps, |After(start, ps[..|ps| - 1]).setups|, |ps| - 1)
  {
    var n := |ps| - 1;
    hide Sound, Allowed, Next, HookAll, Plan;
    NextKeeps(sys, After(start, ps[..n]), ps[n], |After(start, ps[..n]).setups|);
  }

  /** Every mock that lives has been created by some statement. */
  lemma {:induction false} Origin(sys: System, table: seq<Got.Fn>, words: set<int>, ps: seq<Statement>, k: nat)
    returns (i: nat)
    requires Legal(sys, Start(table, words), ps) && k in After(Start(table, words), ps).live
    ensures CreatedAt(Start(table, words), ps, k, i)
  {
    var start, n := Start(table, words), |ps| - 1;
    LegalPrefix(sys, start, ps, n);
    WordsAreKept(sys, table, words, ps[..n]);
    assert Allowed(sys, After(start, ps[..n]), ps[n], 1);
    hide Legal, Allowed, Sound, Next, CreatedAt;
    NextKeeps(sys, After(start, ps[..n]), ps[n], k);
    if ps[n].Create? && k == |After(start, ps[..n]).setups| {
      i := n;
      JustCreated(sys, start, ps);
    } else {
      i := Origin(sys, table, words, ps[..n], k);
      StillCreatedAt(sys, start, ps, k, i);
    }
  }

  // ---- one slot over programs ----

  /** The statement patches slot `x`, or undoes a patch of it. */
  predicate Touches(s: Progress, p: Statement, x: nat) {
    match p
    case Create(c) => Listed(Plan(c), x)
    case Do(_, _) => false
    case Reset(k, _) => k < |s.setups| && Listed(Plan(s.setups[k]), x)
  }

  /** The last statement that touches slot `x`. */
  function LastTouch(start: Progress, ps: seq<Statement>, x: nat): (j: Option<nat>)
    ensures j.Some? ==> j.value < |ps|
  {
    if ps == [] then None
    else
      var n := |ps| - 1;
      if Touches(After(start, ps[..n]), ps[n], x) then Some(n) else LastTouch(start, ps[..n], x)
  }

  predicate IsTrampoline(v: Got.Fn, hooks: seq<GotRuns.Hook>) {
    exists h | 0 <= h < |hooks| :: hooks[h].trampoline == v
  }

  /** What a creation leaves in slot `x`. */
  lemma SlotAfterCreate(sys: System, s: Progress, c: Setup, x: nat)
    requires Sound(s) && Allowed(sys, s, Create(c), 1) && x < |s.table|
    ensures var v := Next(s, Create(c)).table;
      |v| == |s.table| && if Listed(Plan(c), x) then IsTrampoline(v[x], Plan(c)) else v[x] == s.table[x]
  {
    hide Allowed, Sound, Next, HookAll, Plan;
    NextCreation(sys, s, c, 1);
    if Listed(Plan(c), x) {
      var h := PatchedHoldsTrampoline(s.table, Plan(c), x);
    } else {
      UnlistedStays(s.table, Plan(c), x);
    }
  }

  /** What the reset of a mock leaves in slot `x`, whatever the table held by then. */
  lemma SlotAfterReset(s: Progress, k: nat, r: Reach, before: seq<Got.Fn>, x: nat)
    requires Sound(s) && k in s.live && k < |s.setups| && x < |s.table| == |before|
    requires GotRuns.HooksIn(before, Plan(s.setups[k])) && s.live[k] == HookAll(before, Plan(s.setups[k])).1
    ensures var v, hooks := Next(s, Reset(k, r)).table, Plan(s.setups[k]);
      && |v| == |s.table|
      && if Doubled(hooks, x) then IsTrampoline(v[x], hooks)
         else v[x] == if Listed(hooks, x) then before[x] else s.table[x]
  {
    assert HooksMatch(s, k);
    hide Sound, Next, HookAll, Plan;
    NextReset(s, k, r);
    var hooks := Plan(s.setups[k]);
    if Doubled(hooks, x) {
      var h := UndoneDoubled(before, s.table, hooks, x);
    } else {
      UndoneSingly(before, s.table, hooks, x);
    }
  }

  /** The contents of slot `x` follow from the last statement that touched it; `i` created the mock it reset. */
  ghost predicate Explained(start: Progress, ps: seq<Statement>, x: nat, i: nat) {
    var s := After(start, ps);
    x < |start.table| == |s.table|
    && match LastTouch(start, ps, x)
       case None => s.table[x] == start.table[x]
       case Some(j) =>
         match ps[j]
         case Create(c) => IsTrampoline(s.table[x], Plan(c))
         case Do(_, _) => false
         case Reset(k, _) =>
           && i < j && ps[i].Create? && Listed(Plan(ps[i].setup), x)
           && var before, hooks := After(start, ps[..i]), Plan(ps[i].setup);
              && |before.setups| == k && |before.table| == |s.table|
              && if Doubled(hooks, x) then IsTrampoline(s.table[x], hooks) else s.table[x] == before.table[x]
  }

  lemma StillExplained(start: Progress, ps: seq<Statement>, x: nat, i: nat)
    requires ps != [] && Explained(start, ps[..|ps| - 1], x, i)
    requires !Touches(After(start, ps[..|ps| - 1]), ps[|ps| - 1], x) && SameSlot(start, ps, x)
    ensures Explained(start, ps, x, i)
  {
    var n := |ps| - 1;
    hide Next, Touches, IsTrampoline, Plan;
    var j := LastTouch(start, ps[..n], x);
    assert LastTouch(start, ps, x) == j;
    if j.Some? && ps[j.value].Reset? {
      assert ps[..n][..i] == ps[..i];
    }
  }

  lemma LastStep(sys: System, table: seq<Got.Fn>, words: set<int>, ps: seq<Statement>)
    requires Legal(sys, Start(table, words), ps) && ps != []
    ensures var n := |ps| - 1;
      var before := After(Start(table, words), ps[..n]);
      Legal(sys, Start(table, words), ps[..n]) && Sound(before) && Allowed(sys, before, ps[n], 1)
  {
    hide Sound, Allowed, Next;
    LegalPrefix(sys, Start(table, words), ps, |ps| - 1);
    WordsAreKept(sys, table, words, ps[..|ps| - 1]);
  }

  lemma LivesBefore(sys: System, s: Progress, k: nat, r: Reach)
    requires Allowed(sys, s, Reset(k, r), 1)
    ensures k in s.live && k < |s.setups|
  {
  }

  /** The contents after a reset, by the creation of the mock. */
  lemma ResetFits(start: Progress, ps: seq<Statement>, k: nat, r: Reach, x: nat, i: nat)
    requires ps != [] && ps[|ps| - 1] == Reset(k, r) && x < |start.table|
    requires CreatedAt(start, ps[..|ps| - 1], k, i) && Sound(After(start, ps[..|ps| - 1]))
    requires k in After(start, ps[..|ps| - 1]).live
    ensures if Touches(After(start, ps[..|ps| - 1]), Reset(k, r), x) then Explained(start, ps, x, i)
            else SameSlot(start, ps, x)
  {
    hide Sound, Next, HookAll, Doubled, Plan, Listed, IsTrampoline;
    var n := |ps| - 1;
    var s := After(start, ps[..n]);
    assert ps[..n][..i] == ps[..i] && ps[..n][i] == ps[i];
    TableSize(start, ps[..i]);
    TableSize(start, ps[..n]);
    SlotAfterReset(s, k, r, After(start, ps[..i]).table, x);
    TouchedIsListed(s.setups[k], x);
    assert After(start, ps) == Next(s, Reset(k, r));
  }

  lemma TouchedIsListed(c: Setup, x: nat)
    ensures Doubled(Plan(c), x) ==> Listed(Plan(c), x)
  {
    if Doubled(Plan(c), x) {
      DoubledIsListed(Plan(c), x);
    }
  }

  /** The last statement leaves slot `x` as it was. */
  ghost predicate SameSlot(start: Progress, ps: seq<Statement>, x: nat)
    requires ps != []
  {
    var s, t := After(start, ps[..|ps| - 1]), After(start, ps);
    x < |s.table| == |t.table| && t.table[x] == s.table[x]
  }

  lemma ResetExplained(sys: System, table: seq<Got.Fn>, words: set<int>, ps: seq<Statement>, k: nat, r: Reach, x: nat)
    returns (i: nat)
    requires ps != [] && ps[|ps| - 1] == Reset(k, r) && x < |table| == |Start(table, words).table|
    requires Legal(sys, Start(table, words), ps)
    ensures if Touches(After(Start(table, words), ps[..|ps| - 1]), Reset(k, r), x)
            then Explained(Start(table, words), ps, x, i)
            else SameSlot(Start(table, words), ps, x)
  {
    hide *;
    LastStep(sys, table, words, ps);
    LivesBefore(sys, After(Start(table, words), ps[..|ps| - 1]), k, r);
    i := Origin(sys, table, words, ps[..|ps| - 1], k);
    ResetFits(Start(table, words), ps, k, r, x, i);
  }

  lemma CreationExplained(sys: System, start: Progress, ps: seq<Statement>, c: Setup, x: nat)
    requires ps != [] && ps[|ps| - 1] == Create(c) && x < |start.table|
    requires Sound(After(start, ps[..|ps| - 1])) && Allowed(sys, After(start, ps[..|ps| - 1]), Create(c), 1)
    ensures if Touches(After(start, ps[..|ps| - 1]), Create(c), x) then Explained(start, ps, x, 0)
            else SameSlot(start, ps, x)
  {
    hide Sound, Allowed, Next, HookAll, Doubled, Plan, Listed, IsTrampoline;
    var n := |ps| - 1;
    TableSize(start, ps[..n]);
    SlotAfterCreate(sys, After(start, ps[..n]), c, x);
    assert After(start, ps) == Next(After(start, ps[..n]), Create(c));
  }

  lemma UseExplained(start: Progress, ps: seq<Statement>, x: nat)
    requires ps != [] && ps[|ps| - 1].Do? && x < |start.table|
    ensures !Touches(After(start, ps[..|ps| - 1]), ps[|ps| - 1], x) && SameSlot(start, ps, x)
  {
    TableSize(start, ps[..|ps| - 1]);
  }

  /**
   Over every program, whichever slots its stubs share: a slot nobody has touched holds its original contents, one that
   was last patched a trampoline, and one that was last given back what it held when the mock just reset was created, or
   a trampoline if that mock listed it twice.
   */
  lemma {:induction false} SlotHistory(sys: System, table: seq<Got.Fn>, words: set<int>, ps: seq<Statement>, x: nat)
    returns (i: nat)
    requires Legal(sys, Start(table, words), ps) && x < |table|
    ensures Explained(Start(table, words), ps, x, i)
  {
    hide After, Legal, Allowed, Sound, Explained, HookAll, Plan, Touches, SameSlot;
    var start, n := Start(table, words), |ps| - 1;
    i := 0;
    if ps == [] {
      NothingTouched(start, x);
    } else {
      LastStep(sys, table, words, ps);
      match ps[n] {
        case Create(c) => CreationExplained(sys, start, ps, c, x);
        case Do(_, _) => UseExplained(start, ps, x);
        case Reset(k, r) => i := ResetExplained(sys, table, words, ps, k, r, x);
      }
      if !Touches(After(start, ps[..n]), ps[n], x) {
        i := SlotHistory(sys, table, words, ps[..n], x);
        StillExplained(start, ps, x, i);
      }
    }
  }

  lemma NothingTouched(start: Progress, x: nat)
    requires x < |start.table|
    ensures Explained(start, [], x, 0)
  {
  }

  /** All trampolines of the program have addresses that are new to the table. */
  predicate AllNew(original: seq<Got.Fn>, ps: seq<Statement>) {
    forall i | 0 <= i < |ps| && ps[i].Create? :: NewTrampolines(original, Plan(ps[i].setup))
  }

  /** Nobody has touched the slot, or it was last given back by a mock that listed it once and found it so. */
  ghost predicate FoundOriginal(original: seq<Got.Fn>, start: Progress, ps: seq<Statement>, x: nat, i: nat)
    requires Explained(start, ps, x, i) && start.table == original
  {
    match LastTouch(start, ps, x)
    case None => true
    case Some(j) => ps[j].Reset? && !Doubled(Plan(ps[i].setup), x) && After(start, ps[..i]).table[x] == original[x]
  }

  /**
   The exact condition for a slot to hold its original contents: nobody has touched it, or it was last given back by a
   mock that listed it once and was created when the slot held them.
   */
  lemma SlotIsOriginal(sys: System, original: seq<Got.Fn>, words: set<int>, ps: seq<Statement>, x: nat)
    returns (i: nat)
    requires Legal(sys, Start(original, words), ps) && x < |original| && AllNew(original, ps)
    ensures var start := Start(original, words);
      && Explained(start, ps, x, i)
      && (After(start, ps).table[x] == original[x] <==> FoundOriginal(original, start, ps, x, i))
  {
    i := SlotHistory(sys, original, words, ps, x);
    hide Legal, After, LastTouch, Doubled, Plan, NewTrampolines, IsTrampoline;
    var v := After(Start(original, words), ps).table[x];
    var j := LastTouch(Start(original, words), ps, x);
    if j.Some? {
      if ps[j.value].Create? {
        NotOriginal(original, v, Plan(ps[j.value].setup), x);
      } else if ps[j.value].Reset? {
        NotOriginal(original, v, Plan(ps[i].setup), x);
      }
    }
  }

  lemma NotOriginal(original: seq<Got.Fn>, v: Got.Fn, hooks: seq<GotRuns.Hook>, x: nat)
    requires NewTrampolines(original, hooks) && x < |original|
    ensures IsTrampoline(v, hooks) ==> v != original[x]
  {
  }

  // ---- the same condition on the statements alone ----

  /** All mocks that the statements created, in order. */
  function SetupsIn(ps: seq<Statement>): seq<Setup> {
    if ps == [] then []
    else
      var n := |ps| - 1;
      SetupsIn(ps[..n]) + if ps[n].Create? then [ps[n].setup] else []
  }

  /** The statement that created mock `k`. */
  function CreationOf(ps: seq<Statement>, k: nat): (i: nat)
    requires k < |SetupsIn(ps)|
    ensures i < |ps| && ps[i].Create? && ps[i].setup == SetupsIn(ps)[k] && |SetupsIn(ps[..i])| == k
  {
    var n := |ps| - 1;
    if k < |SetupsIn(ps[..n])| then
      var i := CreationOf(ps[..n], k);
      assert ps[..n][..i] == ps[..i];
      i
    else n
  }

  /** Statement `j` patches slot `x`, or undoes a patch of it. */
  predicate Concerns(ps: seq<Statement>, j: nat, x: nat)
    requires j < |ps|
  {
    match ps[j]
    case Create(c) => Listed(Plan(c), x)
    case Do(_, _) => false
    case Reset(k, _) => var setups := SetupsIn(ps[..j]); k < |setups| && Listed(Plan(setups[k]), x)
  }

  function LastConcern(ps: seq<Statement>, x: nat): (j: Option<nat>)
    ensures j.Some? ==> j.value < |ps| && Concerns(ps, j.value, x)
  {
    if ps == [] then None
    else
      var n := |ps| - 1;
      if Concerns(ps, n, x) then Some(n)
      else
        var j := LastConcern(ps[..n], x);
        assert j.Some? ==> ps[..n][..j.value] == ps[..j.value];
        j
  }

  /**
   Slot `x` has not been touched, or it was last touched by the reset of a mock that listed it once and in whose
   creation it was in this state.
   */
  predicate IsGivenBack(ps: seq<Statement>, x: nat)
    decreases |ps|
  {
    match LastConcern(ps, x)
    case None => true
    case Some(j) =>
      && ps[j].Reset?
      && var i := CreationOf(ps[..j], ps[j].mock);
         !Doubled(Plan(ps[i].setup), x) && IsGivenBack(ps[..i], x)
  }

  lemma {:induction false} SetupsKnown(sys: System, table: seq<Got.Fn>, words: set<int>, ps: seq<Statement>)
    requires Legal(sys, Start(table, words), ps)
    ensures After(Start(table, words), ps).setups == SetupsIn(ps)
  {
    if ps != [] {
      var start, n := Start(table, words), |ps| - 1;
      hide Sound, Allowed, Next, Legal;
      LastStep(sys, table, words, ps);
      SetupsKnown(sys, table, words, ps[..n]);
      SetupsNext(sys, After(start, ps[..n]), ps[n]);
    }
  }

  lemma SetupsNext(sys: System, s: Progress, p: Statement)
    requires Allowed(sys, s, p, 1)
    ensures Next(s, p).setups == s.setups + if p.Create? then [p.setup] else []
  {
    if p.Create? {
      hide Allowed, Next, HookAll, Plan;
      NextCreation(sys, s, p.setup, 1);
    }
  }

  lemma {:induction false} ConcernsAreTouches(sys: System, table: seq<Got.Fn>, words: set<int>, ps: seq<Statement>,
                                              x: nat)
    requires Legal(sys, Start(table, words), ps)
    ensures LastConcern(ps, x) == LastTouch(Start(table, words), ps, x)
  {
    if ps != [] {
      var n := |ps| - 1;
      hide Sound, Allowed, Next, Legal, Plan, Listed;
      LastStep(sys, table, words, ps);
      SetupsKnown(sys, table, words, ps[..n]);
      ConcernsAreTouches(sys, table, words, ps[..n], x);
    }
  }

  lemma {:induction false} SetupsGrow(ps: seq<Statement>, i: nat)
    requires i < |ps| && ps[i].Create?
    ensures |SetupsIn(ps)| > |SetupsIn(ps[..i])|
  {
    var n := |ps| - 1;
    if i < n {
      assert ps[..n][..i] == ps[..i];
      SetupsGrow(ps[..n], i);
    }
  }

  /** Only one statement created mock `k`. */
  lemma OneCreation(ps: seq<Statement>, i: nat, j: nat)
    requires i < |ps| && j < |ps| && ps[i].Create? && ps[j].Create? && |SetupsIn(ps[..i])| == |SetupsIn(ps[..j])|
    ensures i == j
  {
    if i < j {
      assert ps[..j][..i] == ps[..i];
      SetupsGrow(ps[..j], i);
    } else if j < i {
      assert ps[..i][..j] == ps[..j];
      SetupsGrow(ps[..i], j);
    }
  }

  /** Over every program, whichever slots its stubs share: which slots hold their original contents. */
  lemma {:induction false} SlotIsGivenBack(sys: System, original: seq<Got.Fn>, words: set<int>, ps: seq<Statement>,
                                         x: nat)
    requires Legal(sys, Start(original, words), ps) && x < |original| && AllNew(original, ps)
    ensures |After(Start(original, words), ps).table| == |original|
    ensures After(Start(original, words), ps).table[x] == original[x] <==> IsGivenBack(ps, x)
    decreases |ps|
  {
    var start := Start(original, words);
    hide Legal, After, Doubled, Plan, AllNew, Concerns;
    var i := SlotIsOriginal(sys, original, words, ps, x);
    ConcernsAreTouches(sys, original, words, ps, x);
    var j := LastConcern(ps, x);
    if j.Some? && ps[j.value].Reset? {
      CreationIs(sys, original, words, ps, i, j.value, x);
      PrefixIsNew(original, ps, i);
      LegalPrefix(sys, start, ps, i);
      SlotIsGivenBack(sys, original, words, ps[..i], x);
    }
  }

  lemma PrefixIsNew(original: seq<Got.Fn>, ps: seq<Statement>, i: nat)
    requires AllNew(original, ps) && i <= |ps|
    ensures AllNew(original, ps[..i])
  {
  }

  lemma CreationIs(sys: System, table: seq<Got.Fn>, words: set<int>, ps: seq<Statement>, i: nat, j: nat, x: nat)
    requires Legal(sys, Start(table, words), ps) && i < j < |ps| && ps[i].Create? && ps[j].Reset?
    requires |After(Start(table, words), ps[..i]).setups| == ps[j].mock && Concerns(ps, j, x)
    ensures i == CreationOf(ps[..j], ps[j].mock)
  {
    hide Legal, After, Plan, Listed;
    LegalPrefix(sys, Start(table, words), ps, i);
    SetupsKnown(sys, table, words, ps[..i]);
    var c := CreationOf(ps[..j], ps[j].mock);
    assert ps[..j][..i] == ps[..i] && ps[..j][..c] == ps[..c];
    OneCreation(ps[..j], i, c);
  }

  ghost predicate AllGivenBack(ps: seq<Statement>, size: nat) {
    forall x | 0 <= x < size :: IsGivenBack(ps, x)
  }

  /** The table is the original one exactly when every slot has been given back. */
  lemma TableIsGivenBack(sys: System, original: seq<Got.Fn>, words: set<int>, ps: seq<Statement>)
    requires Legal(sys, Start(original, words), ps) && AllNew(original, ps)
    ensures After(Start(original, words), ps).table == original <==> AllGivenBack(ps, |original|)
  {
    hide Legal, After, AllNew, IsGivenBack;
    var table := After(Start(original, words), ps).table;
    TableSize(Start(original, words), ps);
    if AllGivenBack(ps, |original|) {
      forall x | 0 <= x < |original|
        ensures table[x] == original[x]
      {
        SlotIsGivenBack(sys, original, words, ps, x);
      }
      assert table == original;
    } else {
      var x :| 0 <= x < |original| && !IsGivenBack(ps, x);
      SlotIsGivenBack(sys, original, words, ps, x);
    }
  }
}

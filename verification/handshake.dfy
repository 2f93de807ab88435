/**
 One thread's runs: mocks are created, functions called from user code, from stub routines and from real functions,
 nested as deep as one likes, and mocks reset through any function. All links between functions, stubs and mocks are
 those the library follows: the header of a trampoline's page, the fields of a stub, and a mock's list of stubs.
 */
module Handshake {
  import opened Bytes
  import opened Context

  /** A stub to be created: where its struct and its trampoline come to lie. */
  datatype Place = Place(stub: Pointer, trampoline: Pointer)

  /** `body` is what the code behind a function does: the stub's routine, or the real function at that address. */
  datatype Action =
    | Create(mock: Pointer, places: seq<Place>)
    | Call(fn: Pointer, body: seq<Action>)
    | Reset(fn: Pointer, body: seq<Action>)

  /** Code starts running: a stub's routine, or a real function (`stub` is NULL). */
  datatype Visit = Visit(stub: Pointer, tls: Tls)

  /** The fields of a stub that matter here. */
  datatype Struct = Struct(ctx: Pointer, trampoline: Pointer)

  /**
   Crashed: a function was called whose page is no longer mapped. Lost: a reset has taken a real function's result for
   a stub. Impossible: the system handed out an address that was in use, or a link led nowhere.
   */
  datatype Fate = Running | Crashed | Lost | Impossible

  /**
   `pages` has the header word of every mapped trampoline, `stubs` and `mocks` what malloc has handed out for them, and
   `unmapped` the trampolines that are gone. `misused`: a question has been put to a real function.
   */
  datatype State = State(tls: Tls, pages: map<Pointer, Pointer>, stubs: map<Pointer, Struct>,
                         mocks: map<Pointer, seq<Pointer>>, unmapped: set<Pointer>, visits: seq<Visit>, fate: Fate,
                         misused: bool)

  /** No trampoline lies there, and none has. */
  predicate IsReal(s: State, fn: Pointer) {
    fn !in s.pages && fn !in s.unmapped
  }

  // ---- creation ----

  /** The addresses are not in use. */
  predicate Unused(s: State, p: Place) {
    p.stub != NULL && p.trampoline != NULL && p.stub !in s.stubs && p.trampoline !in s.pages
  }

  function OneStub(s: State, mock: Pointer, p: Place): State {
    s.(tls := Tls(0, NULL), pages := s.pages[p.trampoline := p.stub],
       stubs := s.stubs[p.stub := Struct(mock, p.trampoline)],
       mocks := s.mocks[mock := (if mock in s.mocks then s.mocks[mock] else []) + [p.stub]],
       unmapped := s.unmapped - {p.trampoline})
  }

  /** The stubs of a mock, one after the other; each creation clears both thread-local variables. */
  function StubsMade(s: State, mock: Pointer, places: seq<Place>): State {
    if places == [] then s
    else
      var n := |places| - 1;
      var t := StubsMade(s, mock, places[..n]);
      if t.fate != Running then t
      else if !Unused(t, places[n]) then t.(fate := Impossible)
      else OneStub(t, mock, places[n])
  }

  function Created(s: State, mock: Pointer, places: seq<Place>): State {
    if mock in s.mocks then s.(fate := Impossible) else StubsMade(s.(tls := Tls(0, NULL)), mock, places)
  }

  // ---- destruction ----

  function Without(s: State, stub: Pointer): State
    requires stub in s.stubs
  {
    var fn := s.stubs[stub].trampoline;
    s.(pages := s.pages - {fn}, unmapped := s.unmapped + {fn}, stubs := s.stubs - {stub})
  }

  /** The loop over a mock's stubs. */
  function WithoutAll(s: State, stubs: seq<Pointer>): State
    decreases |stubs|
  {
    if stubs == [] || s.fate != Running then s
    else if stubs[0] !in s.stubs then s.(fate := Impossible)
    else WithoutAll(Without(s, stubs[0]), stubs[1..])
  }

  function TearDown(s: State, mock: Pointer): State {
    if mock !in s.mocks then s.(fate := Impossible)
    else
      var t := WithoutAll(s, s.mocks[mock]);
      if t.fate != Running then t else t.(mocks := t.mocks - {mock})
  }

  // ---- runs ----

  /** Code other than a trampoline starts running. */
  function Begun(s: State, stub: Pointer): State {
    s.(visits := s.visits + [Visit(stub, s.tls)])
  }

  /** A call, by the program or by `mmk_ask_ctx`, and the stub it returned if it was answered. */
  function Invoke(s: State, fn: Pointer, body: seq<Action>): (State, Option<Pointer>)
    decreases body, 2
  {
    if fn in s.pages then
      var (tls, entry) := Enter(s.tls, s.pages[fn]);
      match entry
      case Routine => (DoAll(Begun(s.(tls := tls), s.pages[fn]), body), None)
      case Answer(ctx) => (s.(tls := tls), Some(ctx))
    else if fn in s.unmapped then (s.(fate := Crashed), None)
    else (DoAll(Begun(s, NULL), body), None)
  }

  /** `mmk_ask_ctx` is about to call. */
  function Asking(s: State, fn: Pointer): State {
    s.(tls := s.tls.(asked := 1), misused := s.misused || IsReal(s, fn))
  }

  /** The rest of mmk_reset: the mock of the stub it was given. */
  function Finish(t: State, answer: Option<Pointer>): State {
    if t.fate != Running then t
    else
      match answer
      case None => t.(fate := Lost)
      case Some(stub) => if stub in t.stubs then TearDown(t, t.stubs[stub].ctx) else t.(fate := Impossible)
  }

  function Do(s: State, a: Action): State
    decreases a
  {
    if s.fate != Running then s
    else
      match a
      case Create(mock, places) => Created(s, mock, places)
      case Call(fn, body) => Invoke(s, fn, body).0
      case Reset(fn, body) =>
        if fn == NULL then s
        else
          var (t, answer) := Invoke(Asking(s, fn), fn, body);
          Finish(t, answer)
  }

  function DoAll(s: State, actions: seq<Action>): State
    decreases actions, 0
  {
    if actions == [] then s else DoAll(Do(s, actions[0]), actions[1..])
  }

  // ---- the thread's own variables, and what it shares ----

  class Thread {
    var askCtx: Flag
    var ctx: Pointer
    var pages: map<Pointer, Pointer>
    var stubs: map<Pointer, Struct>
    var mocks: map<Pointer, seq<Pointer>>
    var unmapped: set<Pointer>
    ghost var visits: seq<Visit>
    var fate: Fate
    ghost var misused: bool

    ghost function Snapshot(): State
      reads this
    {
      State(Tls(askCtx, ctx), pages, stubs, mocks, unmapped, visits, fate, misused)
    }

    method CtxAsked() returns (asked: Flag)
      modifies this`askCtx
      ensures asked == old(askCtx) && askCtx == 0
    {
      asked := askCtx;
      askCtx := 0;
    }

    method SetCtx(stub: Pointer)
      modifies this`ctx
      ensures ctx == stub
    {
      ctx := stub;
    }

    method Perform(actions: seq<Action>)
      modifies this
      ensures Snapshot() == DoAll(old(Snapshot()), actions)
      decreases actions, 0
    {
      var i := 0;
      while i < |actions|
        invariant i <= |actions|
        invariant DoAll(Snapshot(), actions[i..]) == DoAll(old(Snapshot()), actions)
      {
        hide Do;
        assert actions[i..][1..] == actions[i + 1..];
        Act(actions[i]);
        i := i + 1;
      }
    }

    method RunCode(ghost stub: Pointer, body: seq<Action>)
      modifies this
      ensures Snapshot() == DoAll(Begun(old(Snapshot()), stub), body)
      decreases body, 1
    {
      visits := visits + [Visit(stub, Tls(askCtx, ctx))];
      Perform(body);
    }

    /** What an address leads to: a trampoline, which may answer, nothing, or a real function. */
    method CallFunction(fn: Pointer, body: seq<Action>) returns (r: Option<Pointer>)
      modifies this
      ensures (Snapshot(), r) == Invoke(old(Snapshot()), fn, body)
      decreases body, 2
    {
      hide DoAll;
      r := None;
      if fn in pages {
        var stub := pages[fn];
        SetCtx(stub);
        var asked := CtxAsked();
        if asked != 0 {
          return Some(ctx);
        }
        RunCode(stub, body);
      } else if fn in unmapped {
        fate := Crashed;
      } else {
        RunCode(NULL, body);
      }
    }

    method AskCtx(fn: Pointer, body: seq<Action>) returns (r: Option<Pointer>)
      modifies this
      ensures (Snapshot(), r) == Invoke(Asking(old(Snapshot()), fn), fn, body)
      decreases body, 3
    {
      misused := misused || IsReal(Snapshot(), fn);
      askCtx := 1;
      r := CallFunction(fn, body);
    }

    /** The stubs of a new mock. */
    method CreateStubs(mock: Pointer, places: seq<Place>)
      requires fate == Running
      modifies this
      ensures Snapshot() == Created(old(Snapshot()), mock, places)
    {
      if mock in mocks {
        fate := Impossible;
        return;
      }
      askCtx, ctx := 0, NULL;
      ghost var start := Snapshot();
      var i := 0;
      while i < |places| && fate == Running
        invariant i <= |places| && Snapshot() == StubsMade(start, mock, places[..i])
      {
        var p := places[i];
        assert places[..i + 1][..i] == places[..i];
        askCtx, ctx := 0, NULL;
        CreateStub(mock, p);
        i := i + 1;
      }
      StoppedStays(start, mock, places, i);
      assert places[..|places|] == places;
    }

    method CreateStub(mock: Pointer, p: Place)
      requires fate == Running && askCtx == 0 && ctx == NULL
      modifies this
      ensures var s := old(Snapshot());
        Snapshot() == if Unused(s, p) then OneStub(s, mock, p) else s.(fate := Impossible)
    {
      if p.stub == NULL || p.trampoline == NULL || p.stub in stubs || p.trampoline in pages {
        fate := Impossible;
        return;
      }
      pages := pages[p.trampoline := p.stub];
      unmapped := unmapped - {p.trampoline};
      stubs := stubs[p.stub := Struct(mock, p.trampoline)];
      mocks := mocks[mock := (if mock in mocks then mocks[mock] else []) + [p.stub]];
    }

    /** `mmk_mock_destroy_internal`, as far as stubs go. */
    method Destroy(mock: Pointer)
      requires fate == Running
      modifies this
      ensures Snapshot() == TearDown(old(Snapshot()), mock)
    {
      if mock !in mocks {
        fate := Impossible;
        return;
      }
      var list, i := mocks[mock], 0;
      while i < |list| && fate == Running
        invariant i <= |list| && mocks == old(mocks)
        invariant WithoutAll(Snapshot(), list[i..]) == WithoutAll(old(Snapshot()), list)
      {
        assert list[i..][1..] == list[i + 1..];
        var stub := list[i];
        if stub in stubs {
          var fn := stubs[stub].trampoline;
          pages, unmapped, stubs := pages - {fn}, unmapped + {fn}, stubs - {stub};
        } else {
          fate := Impossible;
        }
        i := i + 1;
      }
      if fate == Running {
        mocks := mocks - {mock};
      }
    }

    method Act(a: Action)
      modifies this
      ensures Snapshot() == Do(old(Snapshot()), a)
      decreases a
    {
      hide Invoke, Created, TearDown;
      if fate != Running {
        return;
      }
      match a
      case Create(mock, places) => CreateStubs(mock, places);
      case Call(fn, body) =>
        var r := CallFunction(fn, body);
      case Reset(fn, body) =>
        if fn == NULL {
          return;
        }
        var answer := AskCtx(fn, body);
        if fate == Running {
          if answer.None? {
            fate := Lost;
          } else if answer.value in stubs {
            Destroy(stubs[answer.value].ctx);
          } else {
            fate := Impossible;
          }
        }
    }
  }

  lemma {:induction false} StoppedStays(s: State, mock: Pointer, places: seq<Place>, i: nat)
    requires i <= |places| && (i < |places| ==> StubsMade(s, mock, places[..i]).fate != Running)
    ensures StubsMade(s, mock, places) == StubsMade(s, mock, places[..i])
    decreases |places|
  {
    if i < |places| {
      var n := |places| - 1;
      assert places[..n][..i] == places[..i];
      StoppedStays(s, mock, places[..n], i);
    } else {
      assert places[..i] == places;
    }
  }

  // ---- the links ----

  ghost predicate Distinct(list: seq<Pointer>) {
    forall i, j | 0 <= i < j < |list| :: list[i] != list[j]
  }

  /** The header of a trampoline names a stub that names the trampoline, and the other way round. */
  ghost predicate HeadersAgree(pages: map<Pointer, Pointer>, stubs: map<Pointer, Struct>) {
    && (forall fn <- pages :: fn != NULL && pages[fn] in stubs && stubs[pages[fn]].trampoline == fn)
    && (forall x <- stubs :: stubs[x].trampoline in pages && pages[stubs[x].trampoline] == x)
  }

  /** A mock's list has the stubs that name the mock. */
  ghost predicate ListsAgree(stubs: map<Pointer, Struct>, mocks: map<Pointer, seq<Pointer>>) {
    && (forall x <- stubs :: x != NULL && stubs[x].ctx in mocks && x in mocks[stubs[x].ctx])
    && (forall k <- mocks :: Distinct(mocks[k]) && mocks[k] != [])
    && (forall k, x | k in mocks && x in mocks[k] :: x in stubs && stubs[x].ctx == k)
  }

  /** Headers, stubs and lists agree, and nothing is both mapped and unmapped. */
  ghost predicate Linked(s: State) {
    HeadersAgree(s.pages, s.stubs) && ListsAgree(s.stubs, s.mocks) && s.pages.Keys !! s.unmapped
  }

  lemma OneMoreHeader(s: State, mock: Pointer, p: Place)
    requires HeadersAgree(s.pages, s.stubs) && Unused(s, p)
    ensures var t := OneStub(s, mock, p); HeadersAgree(t.pages, t.stubs)
  {
  }

  lemma OneMoreListed(s: State, mock: Pointer, p: Place)
    requires ListsAgree(s.stubs, s.mocks) && Unused(s, p)
    ensures var t := OneStub(s, mock, p); ListsAgree(t.stubs, t.mocks)
  {
    var t := OneStub(s, mock, p);
    var list := if mock in s.mocks then s.mocks[mock] else [];
    assert t.mocks[mock] == list + [p.stub] && p.stub !in list;
    forall x <- t.stubs
      ensures x != NULL && t.stubs[x].ctx in t.mocks && x in t.mocks[t.stubs[x].ctx]
    {
      assert x == p.stub || (x in s.stubs && t.stubs[x] == s.stubs[x]);
    }
    forall k, x | k in t.mocks && x in t.mocks[k]
      ensures x in t.stubs && t.stubs[x].ctx == k
    {
      assert k == mock || t.mocks[k] == s.mocks[k];
    }
  }

  lemma OneStubKeepsLinks(s: State, mock: Pointer, p: Place)
    requires Linked(s) && Unused(s, p)
    ensures Linked(OneStub(s, mock, p))
  {
    OneMoreHeader(s, mock, p);
    OneMoreListed(s, mock, p);
    hide HeadersAgree, ListsAgree;
  }

  lemma {:induction false} CreationKeepsLinks(s: State, mock: Pointer, places: seq<Place>)
    requires Linked(s)
    ensures Linked(StubsMade(s, mock, places))
  {
    hide Linked, OneStub, Unused;
    if places != [] {
      var n := |places| - 1;
      CreationKeepsLinks(s, mock, places[..n]);
      var t := StubsMade(s, mock, places[..n]);
      if t.fate == Running && Unused(t, places[n]) {
        OneStubKeepsLinks(t, mock, places[n]);
      } else {
        FateHasNoLinks(t, Impossible);
      }
    }
  }

  lemma FateHasNoLinks(s: State, fate: Fate)
    requires Linked(s)
    ensures Linked(s.(fate := fate))
  {
  }

  function Trampolines(s: State, list: seq<Pointer>): set<Pointer>
    requires forall x | x in list :: x in s.stubs
  {
    set x | x in list :: s.stubs[x].trampoline
  }

  lemma FirstTrampoline(s: State, list: seq<Pointer>)
    requires list != [] && Distinct(list) && forall x | x in list :: x in s.stubs
    ensures Distinct(list[1..]) && forall x | x in list[1..] :: x in s.stubs && x != list[0]
    ensures Trampolines(s, list) == {s.stubs[list[0]].trampoline} + Trampolines(s, list[1..])
    ensures (set x | x in list) == {list[0]} + set x | x in list[1..]
  {
    assert list == [list[0]] + list[1..];
    forall x | x in list[1..]
      ensures x != list[0]
    {
      var i :| 0 <= i < |list[1..]| && list[1..][i] == x;
      assert list[0] != list[i + 1];
    }
  }

  /** These trampolines are unmapped and these stubs given back. */
  function Shorn(s: State, fns: set<Pointer>, xs: set<Pointer>): State {
    s.(pages := s.pages - fns, unmapped := s.unmapped + fns, stubs := s.stubs - xs)
  }

  lemma ShornOnceMore(s: State, x: Pointer, fns: set<Pointer>, xs: set<Pointer>)
    requires x in s.stubs
    ensures Shorn(Without(s, x), fns, xs) == Shorn(s, {s.stubs[x].trampoline} + fns, {x} + xs)
  {
    var fn := s.stubs[x].trampoline;
    assert s.pages - {fn} - fns == s.pages - ({fn} + fns);
    assert s.stubs - {x} - xs == s.stubs - ({x} + xs);
    assert s.unmapped + {fn} + fns == s.unmapped + ({fn} + fns);
  }

  /** What the loop over the stubs comes to. */
  lemma {:induction false} WithoutAllIs(s: State, list: seq<Pointer>)
    requires s.fate == Running && Distinct(list) && forall x | x in list :: x in s.stubs
    ensures WithoutAll(s, list) == Shorn(s, Trampolines(s, list), set x | x in list)
    decreases |list|
  {
    if list != [] {
      hide Shorn;
      var t := Without(s, list[0]);
      FirstTrampoline(s, list);
      WithoutAllIs(t, list[1..]);
      assert Trampolines(t, list[1..]) == Trampolines(s, list[1..]);
      ShornOnceMore(s, list[0], Trampolines(s, list[1..]), set x | x in list[1..]);
    }
  }

  lemma TearDownIs(s: State, mock: Pointer)
    requires Linked(s) && s.fate == Running && mock in s.mocks
    ensures forall x | x in s.mocks[mock] :: x in s.stubs
    ensures TearDown(s, mock)
         == Shorn(s, Trampolines(s, s.mocks[mock]), set x | x in s.mocks[mock]).(mocks := s.mocks - {mock})
  {
    WithoutAllIs(s, s.mocks[mock]);
  }

  lemma FewerHeaders(s: State, list: seq<Pointer>)
    requires HeadersAgree(s.pages, s.stubs) && forall x | x in list :: x in s.stubs
    ensures HeadersAgree(s.pages - Trampolines(s, list), s.stubs - (set x | x in list))
  {
  }

  lemma FewerLists(s: State, mock: Pointer)
    requires ListsAgree(s.stubs, s.mocks) && mock in s.mocks
    ensures ListsAgree(s.stubs - (set x | x in s.mocks[mock]), s.mocks - {mock})
  {
    var stubs, mocks := s.stubs - (set x | x in s.mocks[mock]), s.mocks - {mock};
    forall x <- stubs
      ensures x != NULL && stubs[x].ctx in mocks && x in mocks[stubs[x].ctx]
    {
      assert x in s.mocks[s.stubs[x].ctx];
    }
    forall k, x | k in mocks && x in mocks[k]
      ensures x in stubs && stubs[x].ctx == k
    {
      assert x in s.mocks[k] && s.stubs[x].ctx == k;
      assert x !in s.mocks[mock];
    }
  }

  lemma TearDownKeepsLinks(s: State, mock: Pointer)
    requires Linked(s)
    ensures Linked(TearDown(s, mock)) || s.fate != Running
  {
    if mock in s.mocks && s.fate == Running {
      TearDownIs(s, mock);
      FewerHeaders(s, s.mocks[mock]);
      FewerLists(s, mock);
      hide HeadersAgree, ListsAgree, TearDown;
    }
  }

  /** They agree at the end of every run. */
  lemma {:induction false} LinksAreKept(s: State, actions: seq<Action>)
    requires Linked(s)
    ensures Linked(DoAll(s, actions))
    decreases actions, 0
  {
    hide Linked, Do;
    if actions != [] {
      ActionKeepsLinks(s, actions[0]);
      LinksAreKept(Do(s, actions[0]), actions[1..]);
    }
  }

  lemma SameLinks(s: State, t: State)
    requires Linked(s) && t.pages == s.pages && t.stubs == s.stubs && t.mocks == s.mocks && t.unmapped == s.unmapped
    ensures Linked(t)
  {
  }

  /** A call keeps them, and an answer is a stub. */
  lemma CallKeepsLinks(s: State, fn: Pointer, body: seq<Action>)
    requires Linked(s)
    ensures var (t, answer) := Invoke(s, fn, body); Linked(t) && (answer.Some? ==> answer.value in t.stubs)
    decreases body, 2
  {
    hide DoAll, HeadersAgree, ListsAgree;
    if fn in s.pages {
      assert s.pages[fn] in s.stubs by {
        HeaderNamesStub(s, fn);
      }
      var u := Begun(s.(tls := Enter(s.tls, s.pages[fn]).0), s.pages[fn]);
      SameLinks(s, u);
      LinksAreKept(u, body);
    } else {
      SameLinks(s, Begun(s, NULL));
      LinksAreKept(Begun(s, NULL), body);
    }
  }

  lemma HeaderNamesStub(s: State, fn: Pointer)
    requires Linked(s) && fn in s.pages
    ensures s.pages[fn] in s.stubs && s.stubs[s.pages[fn]].ctx in s.mocks
  {
  }

  lemma ActionKeepsLinks(s: State, a: Action)
    requires Linked(s)
    ensures Linked(Do(s, a))
    decreases a
  {
    hide DoAll, Linked, TearDown, StubsMade;
    if s.fate == Running {
      match a
      case Create(mock, places) =>
        FateHasNoLinks(s, Impossible);
        SameLinks(s, s.(tls := Tls(0, NULL)));
        CreationKeepsLinks(s.(tls := Tls(0, NULL)), mock, places);
      case Call(fn, body) => CallKeepsLinks(s, fn, body);
      case Reset(fn, body) =>
        SameLinks(s, Asking(s, fn));
        CallKeepsLinks(Asking(s, fn), fn, body);
        var (t, answer) := Invoke(Asking(s, fn), fn, body);
        FateHasNoLinks(t, Lost);
        if t.fate == Running && answer.Some? {
          TearDownKeepsLinks(t, t.stubs[answer.value].ctx);
        }
    }
  }

  // ---- what a routine sees, and when a question is pending ----

  /** A stub's routine always finds its own stub as the context, and no question pending. */
  predicate OwnContext(v: Visit) {
    v.stub != NULL ==> v.tls == Tls(0, v.stub)
  }

  /** `t` has recorded further visits, all of them with the right context. */
  ghost predicate Grown(s: State, t: State) {
    s.visits <= t.visits && forall i | |s.visits| <= i < |t.visits| :: OwnContext(t.visits[i])
  }

  lemma {:induction false} RoutinesSeeTheirStub(s: State, actions: seq<Action>)
    ensures Grown(s, DoAll(s, actions))
    decreases actions, 0
  {
    if actions != [] {
      hide Do;
      ActionSeesItsStub(s, actions[0]);
      RoutinesSeeTheirStub(Do(s, actions[0]), actions[1..]);
    }
  }

  lemma {:induction false} NoCodeRuns(s: State, mock: Pointer, places: seq<Place>, list: seq<Pointer>)
    ensures StubsMade(s, mock, places).visits == s.visits && WithoutAll(s, list).visits == s.visits
    ensures StubsMade(s, mock, places).misused == s.misused && WithoutAll(s, list).misused == s.misused
    ensures WithoutAll(s, list).tls == s.tls
    ensures s.tls.asked == 0 ==> StubsMade(s, mock, places).tls.asked == 0
    ensures s.tls == Tls(0, NULL) ==> StubsMade(s, mock, places).tls == Tls(0, NULL)
    ensures WithoutAll(s, list).fate != s.fate ==> WithoutAll(s, list).fate == Impossible
    ensures StubsMade(s, mock, places).fate != s.fate ==> StubsMade(s, mock, places).fate == Impossible
    decreases |places| + |list|
  {
    if places != [] {
      NoCodeRuns(s, mock, places[..|places| - 1], list);
    } else if list != [] && s.fate == Running && list[0] in s.stubs {
      NoCodeRuns(Without(s, list[0]), mock, [], list[1..]);
    }
  }

  /** The end of a reset. */
  lemma FinishIsSilent(t: State, answer: Option<Pointer>)
    ensures var u := Finish(t, answer);
      && u.visits == t.visits && u.misused == t.misused && u.tls == t.tls
      && (t.fate != Running ==> u == t) && (answer.None? ==> u.fate != Running)
      && (u.fate == Lost ==> t.fate == Lost || (t.fate == Running && answer.None?))
  {
    if t.fate == Running && answer.Some? && answer.value in t.stubs {
      var mock := t.stubs[answer.value].ctx;
      if mock in t.mocks {
        NoCodeRuns(t, mock, [], t.mocks[mock]);
      }
    }
  }

  lemma ActionSeesItsStub(s: State, a: Action)
    ensures Grown(s, Do(s, a))
    decreases a
  {
    hide DoAll, Finish, StubsMade;
    if s.fate == Running {
      match a
      case Create(mock, places) => NoCodeRuns(s.(tls := Tls(0, NULL)), mock, places, []);
      case Call(fn, body) => CallSeesItsStub(s, fn, body);
      case Reset(fn, body) =>
        CallSeesItsStub(Asking(s, fn), fn, body);
        var (t, answer) := Invoke(Asking(s, fn), fn, body);
        FinishIsSilent(t, answer);
    }
  }

  lemma CallSeesItsStub(s: State, fn: Pointer, body: seq<Action>)
    ensures Grown(s, Invoke(s, fn, body).0)
    decreases body, 2
  {
    hide DoAll;
    RoutinesSeeTheirStub(Begun(s, NULL), body);
    if fn in s.pages {
      RoutinesSeeTheirStub(Begun(s.(tls := Tls(0, s.pages[fn])), s.pages[fn]), body);
    }
  }

  /** No code ran with a question pending. */
  ghost predicate Quiet(s: State, t: State)
    requires Grown(s, t)
  {
    forall i | |s.visits| <= i < |t.visits| :: t.visits[i].tls.asked == 0
  }

  /** How the flag and the visits relate: code has met a pending question exactly if one was put to a real function. */
  ghost predicate FlagFits(s: State, t: State) {
    && Grown(s, t) && (Quiet(s, t) <==> !t.misused)
    && (t.fate == Running ==> !t.misused && t.tls.asked == 0) && (t.fate == Lost ==> t.misused)
  }

  /**
   From a state without a pending question, no question is ever pending while routines, real functions or user code
   run, unless some reset was given a real function; and then one is, and the run does not go on.
   */
  lemma {:induction false} FlagIsDownWhileCodeRuns(s: State, actions: seq<Action>)
    requires s.tls.asked == 0 && s.fate == Running && !s.misused
    ensures FlagFits(s, DoAll(s, actions))
    decreases actions, 0
  {
    hide Do;
    if actions != [] {
      ActionKeepsFlagDown(s, actions[0]);
      var t := Do(s, actions[0]);
      if t.fate != Running {
        NothingMore(t, actions[1..]);
      } else {
        FlagIsDownWhileCodeRuns(t, actions[1..]);
      }
    }
  }

  lemma {:induction false} NothingMore(s: State, actions: seq<Action>)
    requires s.fate != Running
    ensures DoAll(s, actions) == s
    decreases |actions|
  {
    if actions != [] {
      NothingMore(s, actions[1..]);
    }
  }

  lemma ActionKeepsFlagDown(s: State, a: Action)
    requires s.tls.asked == 0 && s.fate == Running && !s.misused
    ensures FlagFits(s, Do(s, a))
    decreases a
  {
    hide DoAll, Finish, StubsMade, Invoke;
    match a
    case Create(mock, places) => NoCodeRuns(s.(tls := Tls(0, NULL)), mock, places, []);
    case Call(fn, body) => CallKeepsFlagDown(s, fn, body);
    case Reset(fn, body) =>
      if fn != NULL {
        QuestionIsAnswered(s, fn, body);
        var (t, answer) := Invoke(Asking(s, fn), fn, body);
        FinishIsSilent(t, answer);
      }
  }

  lemma CallKeepsFlagDown(s: State, fn: Pointer, body: seq<Action>)
    requires s.tls.asked == 0 && s.fate == Running && !s.misused
    ensures FlagFits(s, Invoke(s, fn, body).0)
    decreases body, 2
  {
    hide DoAll;
    if fn in s.pages {
      FlagIsDownWhileCodeRuns(Begun(s.(tls := Tls(0, s.pages[fn])), s.pages[fn]), body);
    } else {
      FlagIsDownWhileCodeRuns(Begun(s, NULL), body);
    }
  }

  /** A question put to a trampoline is answered at once, one put to a real function is met by its code. */
  lemma QuestionIsAnswered(s: State, fn: Pointer, body: seq<Action>)
    requires s.tls.asked == 0 && s.fate == Running && !s.misused
    ensures var (t, answer) := Invoke(Asking(s, fn), fn, body);
      && Grown(s, t) && (Quiet(s, t) <==> !t.misused) && (t.misused <==> IsReal(s, fn))
      && (answer.Some? ==> t.tls.asked == 0 && !t.misused) && (t.fate == Running && answer.None? ==> t.misused)
      && (t.fate == Lost ==> t.misused)
  {
    hide DoAll;
    if IsReal(s, fn) {
      var u := Begun(Asking(s, fn), NULL);
      RoutinesSeeTheirStub(u, body);
      MisuseStays(u, body);
      var t := Invoke(Asking(s, fn), fn, body).0;
      assert t.visits[|s.visits|] == u.visits[|s.visits|] == Visit(NULL, Asking(s, fn).tls);
    }
  }

  /** Once a question has been put to a real function, that remains so. */
  lemma {:induction false} MisuseStays(s: State, actions: seq<Action>)
    requires s.misused
    ensures DoAll(s, actions).misused
    decreases actions, 0
  {
    hide Do;
    if actions != [] {
      ActionKeepsMisuse(s, actions[0]);
      MisuseStays(Do(s, actions[0]), actions[1..]);
    }
  }

  lemma ActionKeepsMisuse(s: State, a: Action)
    requires s.misused
    ensures Do(s, a).misused
    decreases a
  {
    hide DoAll, Finish, StubsMade;
    if s.fate == Running {
      match a
      case Create(mock, places) => NoCodeRuns(s.(tls := Tls(0, NULL)), mock, places, []);
      case Call(fn, body) => CallKeepsMisuse(s, fn, body);
      case Reset(fn, body) =>
        CallKeepsMisuse(Asking(s, fn), fn, body);
        var (t, answer) := Invoke(Asking(s, fn), fn, body);
        FinishIsSilent(t, answer);
    }
  }

  lemma CallKeepsMisuse(s: State, fn: Pointer, body: seq<Action>)
    requires s.misused
    ensures Invoke(s, fn, body).0.misused
    decreases body, 2
  {
    hide DoAll;
    MisuseStays(Begun(s, NULL), body);
    if fn in s.pages {
      MisuseStays(Begun(s.(tls := Tls(0, s.pages[fn])), s.pages[fn]), body);
    }
  }

  // ---- mmk_ask_ctx and mmk_reset ----

  /** The mock to which a function leads: by its header to the stub, by the stub to the mock. */
  function OwnerOf(s: State, fn: Pointer): Pointer
    requires fn in s.pages && s.pages[fn] in s.stubs
  {
    s.stubs[s.pages[fn]].ctx
  }

  /** The answer is the stub that has this very trampoline; it is on the list of the mock it names. */
  ghost predicate AnsweredBy(s: State, fn: Pointer, t: State, r: Option<Pointer>)
    requires fn in s.pages
  {
    && t == s.(tls := Tls(0, s.pages[fn])) && r == Some(s.pages[fn])
    && r.value in s.stubs && s.stubs[r.value].trampoline == fn
    && OwnerOf(s, fn) in s.mocks && r.value in s.mocks[OwnerOf(s, fn)]
  }

  lemma LinksAnswer(s: State, fn: Pointer, body: seq<Action>)
    requires Linked(s) && fn in s.pages
    ensures var (t, r) := Invoke(Asking(s, fn), fn, body); AnsweredBy(s, fn, t, r)
  {
    assert s.pages[fn] in s.stubs && s.stubs[s.pages[fn]].trampoline == fn;
  }

  /** The state before the first mock. */
  const AT_FIRST := State(Tls(0, NULL), map[], map[], map[], {}, [], Running, false)

  lemma LinkedAfter(actions: seq<Action>)
    ensures Linked(DoAll(AT_FIRST, actions))
  {
    LinksAreKept(AT_FIRST, actions);
  }

  /**
   After any run, mmk_ask_ctx on a function that leads to a mapped trampoline runs no code, changes nothing but the two
   thread-local variables, and returns the stub of this trampoline.
   */
  lemma AskAnswersOwner(actions: seq<Action>, fn: Pointer, body: seq<Action>)
    requires fn in DoAll(AT_FIRST, actions).pages
    ensures var s := DoAll(AT_FIRST, actions);
      var (t, r) := Invoke(Asking(s, fn), fn, body);
      AnsweredBy(s, fn, t, r)
  {
    hide *;
    LinkedAfter(actions);
    LinksAnswer(DoAll(AT_FIRST, actions), fn, body);
  }

  /** A trampoline goes with a stub's list exactly if its own stub is on it. */
  lemma TrampolineOfList(s: State, mock: Pointer, fn: Pointer)
    requires Linked(s) && mock in s.mocks && fn in s.pages
    ensures forall x | x in s.mocks[mock] :: x in s.stubs
    ensures s.pages[fn] in s.stubs && (fn in Trampolines(s, s.mocks[mock]) <==> OwnerOf(s, fn) == mock)
  {
    var x := s.pages[fn];
    assert x in s.stubs && s.stubs[x].trampoline == fn;
  }

  /** What is left after mmk_reset through `fn`. */
  ghost predicate TornDown(s: State, fn: Pointer, t: State)
    requires fn in s.pages && s.pages[fn] in s.stubs
  {
    && t.fate == Running && t.visits == s.visits && t.tls == Tls(0, s.pages[fn]) && t.misused == s.misused
    && t.mocks == s.mocks - {OwnerOf(s, fn)}
    && (forall f <- s.pages :: s.pages[f] in s.stubs)
    && (forall f :: f in t.pages <==> f in s.pages && OwnerOf(s, f) != OwnerOf(s, fn))
    && (forall f <- t.pages :: t.pages[f] == s.pages[f])
    && (forall f :: f in t.unmapped <==> f in s.unmapped || (f in s.pages && OwnerOf(s, f) == OwnerOf(s, fn)))
    && (forall x :: x in t.stubs <==> x in s.stubs && s.stubs[x].ctx != OwnerOf(s, fn))
    && (forall x <- t.stubs :: t.stubs[x] == s.stubs[x])
  }

  lemma ResetIs(s: State, fn: Pointer, body: seq<Action>)
    requires Linked(s) && s.fate == Running && fn in s.pages
    ensures s.pages[fn] in s.stubs && OwnerOf(s, fn) in s.mocks
    ensures forall x | x in s.mocks[OwnerOf(s, fn)] :: x in s.stubs
    ensures var list := s.mocks[OwnerOf(s, fn)];
      Do(s, Reset(fn, body)) == Shorn(s, Trampolines(s, list), set x | x in list)
                                .(mocks := s.mocks - {OwnerOf(s, fn)}, tls := Tls(0, s.pages[fn]))
  {
    LinksAnswer(s, fn, body);
    var u, mock := s.(tls := Tls(0, s.pages[fn])), OwnerOf(s, fn);
    SameLinks(s, u);
    TearDownIs(u, mock);
    hide Linked, Invoke, TearDown, WithoutAll;
    assert Do(s, Reset(fn, body)) == TearDown(u, mock);
    assert Trampolines(u, s.mocks[mock]) == Trampolines(s, s.mocks[mock]);
  }

  /** Which trampolines and stubs a mock's list stands for. */
  lemma WhatTheListHas(s: State, mock: Pointer)
    requires Linked(s) && mock in s.mocks
    ensures forall x | x in s.mocks[mock] :: x in s.stubs
    ensures forall f <- s.pages ::
      s.pages[f] in s.stubs && (f in Trampolines(s, s.mocks[mock]) <==> OwnerOf(s, f) == mock)
    ensures forall x <- s.stubs :: x in s.mocks[mock] <==> s.stubs[x].ctx == mock
    ensures forall f <- Trampolines(s, s.mocks[mock]) :: f in s.pages
  {
    forall f <- s.pages
      ensures s.pages[f] in s.stubs && (f in Trampolines(s, s.mocks[mock]) <==> OwnerOf(s, f) == mock)
    {
      TrampolineOfList(s, mock, f);
    }
  }

  lemma ShornIsTornDown(s: State, fn: Pointer, t: State)
    requires Linked(s) && s.fate == Running && fn in s.pages && s.pages[fn] in s.stubs && OwnerOf(s, fn) in s.mocks
    requires forall x | x in s.mocks[OwnerOf(s, fn)] :: x in s.stubs
    requires var list := s.mocks[OwnerOf(s, fn)];
      t == Shorn(s, Trampolines(s, list), set x | x in list)
           .(mocks := s.mocks - {OwnerOf(s, fn)}, tls := Tls(0, s.pages[fn]))
    ensures TornDown(s, fn, t)
  {
    hide Linked, Trampolines;
    WhatTheListHas(s, OwnerOf(s, fn));
  }

  lemma LinksTearDown(s: State, fn: Pointer, body: seq<Action>)
    requires Linked(s) && s.fate == Running && fn in s.pages
    ensures s.pages[fn] in s.stubs && TornDown(s, fn, Do(s, Reset(fn, body)))
  {
    hide *;
    ResetIs(s, fn, body);
    ShornIsTornDown(s, fn, Do(s, Reset(fn, body)));
  }

  /**
   After any run, mmk_reset through any function of a mock unmaps all trampolines of that mock and removes all of its
   stubs; those of other mocks stay. No code runs.
   */
  lemma ResetTearsDownTheMock(actions: seq<Action>, fn: Pointer, body: seq<Action>)
    requires var s := DoAll(AT_FIRST, actions); s.fate == Running && fn in s.pages
    ensures var s := DoAll(AT_FIRST, actions);
      s.pages[fn] in s.stubs && TornDown(s, fn, Do(s, Reset(fn, body)))
  {
    hide *;
    LinkedAfter(actions);
    LinksTearDown(DoAll(AT_FIRST, actions), fn, body);
  }

  /** So it does not matter through which of its functions a mock is reset. */
  lemma AnyFunctionWillDo(s: State, fn: Pointer, other: Pointer, body: seq<Action>)
    requires Linked(s) && s.fate == Running && fn in s.pages && other in s.pages
    ensures s.pages[fn] in s.stubs && s.pages[other] in s.stubs
    ensures OwnerOf(s, fn) == OwnerOf(s, other) ==>
      Do(s, Reset(fn, body)) == Do(s, Reset(other, body)).(tls := Tls(0, s.pages[fn]))
  {
    hide Do, Linked;
    LinksTearDown(s, fn, body);
    LinksTearDown(s, other, body);
    if OwnerOf(s, fn) == OwnerOf(s, other) {
      var t, u := Do(s, Reset(fn, body)), Do(s, Reset(other, body));
      assert t.pages == u.pages && t.stubs == u.stubs && t.unmapped == u.unmapped;
    }
  }

  /** A function of a mock that has been reset leads nowhere: whoever still calls it crashes, and nothing runs. */
  lemma DeadFunctionCrashes(s: State, fn: Pointer, other: Pointer, body: seq<Action>, again: seq<Action>)
    requires Linked(s) && s.fate == Running && fn in s.pages && other in s.pages
    requires s.pages[fn] in s.stubs && s.pages[other] in s.stubs && OwnerOf(s, fn) == OwnerOf(s, other)
    ensures var t := Do(s, Reset(fn, body));
      && Do(t, Call(other, again)) == t.(fate := Crashed)
      && Do(t, Reset(other, again)) == Asking(t, other).(fate := Crashed)
  {
    LinksTearDown(s, fn, body);
    var t := Do(s, Reset(fn, body));
    assert other in t.unmapped && other !in t.pages;
    hide Linked, DoAll;
  }

  // ---- the context ----

  /** What changes the context: a trampoline is entered, or the creation of a stub clears it. */
  datatype Touch = Entered(stub: Pointer) | Cleared

  /** The context-touching steps of a call, in the order in which they happen. */
  function CallTouches(s: State, fn: Pointer, body: seq<Action>): seq<Touch>
    decreases body, 2
  {
    if fn in s.pages then
      var (tls, entry) := Enter(s.tls, s.pages[fn]);
      [Entered(s.pages[fn])]
      + if entry.Routine? then Touches(Begun(s.(tls := tls), s.pages[fn]), body) else []
    else if fn in s.unmapped then []
    else Touches(Begun(s, NULL), body)
  }

  function TouchesOf(s: State, a: Action): seq<Touch>
    decreases a
  {
    if s.fate != Running then []
    else
      match a
      case Create(mock, _) => if mock in s.mocks then [] else [Cleared]
      case Call(fn, body) => CallTouches(s, fn, body)
      case Reset(fn, body) => if fn == NULL then [] else CallTouches(Asking(s, fn), fn, body)
  }

  /** The context-touching steps of `actions`, those of nested calls included. */
  function Touches(s: State, actions: seq<Action>): seq<Touch>
    decreases actions, 0
  {
    if actions == [] then [] else TouchesOf(s, actions[0]) + Touches(Do(s, actions[0]), actions[1..])
  }

  /** The context that a last step leaves. */
  function LeftBy(touches: seq<Touch>, before: Pointer): Pointer {
    if touches == [] then before
    else
      match touches[|touches| - 1]
      case Entered(stub) => stub
      case Cleared => NULL
  }

  lemma {:induction false} LastTouchLeavesContext(s: State, actions: seq<Action>)
    ensures DoAll(s, actions).tls.ctx == LeftBy(Touches(s, actions), s.tls.ctx)
    decreases actions, 0
  {
    if actions != [] {
      hide Do, TouchesOf;
      ActionLeavesContext(s, actions[0]);
      LastTouchLeavesContext(Do(s, actions[0]), actions[1..]);
    }
  }

  lemma ActionLeavesContext(s: State, a: Action)
    ensures Do(s, a).tls.ctx == LeftBy(TouchesOf(s, a), s.tls.ctx)
    decreases a
  {
    hide DoAll, Touches, Finish, StubsMade, CallTouches, Invoke;
    if s.fate == Running {
      match a
      case Create(mock, places) => NoCodeRuns(s.(tls := Tls(0, NULL)), mock, places, []);
      case Call(fn, body) => CallLeavesContext(s, fn, body);
      case Reset(fn, body) =>
        CallLeavesContext(Asking(s, fn), fn, body);
        var (t, answer) := Invoke(Asking(s, fn), fn, body);
        FinishIsSilent(t, answer);
    }
  }

  lemma CallLeavesContext(s: State, fn: Pointer, body: seq<Action>)
    ensures Invoke(s, fn, body).0.tls.ctx == LeftBy(CallTouches(s, fn, body), s.tls.ctx)
    decreases body, 2
  {
    hide DoAll, Touches;
    LastTouchLeavesContext(Begun(s, NULL), body);
    if fn in s.pages {
      LastTouchLeavesContext(Begun(s.(tls := Tls(0, s.pages[fn])), s.pages[fn]), body);
    }
  }

  /**
   `mmk_ctx()` in a stub's routine gives the routine's own stub up to the first further context-touching step, and
   after that exactly when the latest one entered this very stub: after a nested call of another mocked function, or a
   creation or reset of a mock, the documented context is gone.
   */
  lemma ContextAfterRoutine(s: State, fn: Pointer, body: seq<Action>)
    requires Linked(s) && s.fate == Running && s.tls.asked == 0 && fn in s.pages
    ensures var own := s.pages[fn];
      var touches := Touches(Begun(s.(tls := Tls(0, own)), own), body);
      Do(s, Call(fn, body)).tls.ctx == own <==> touches == [] || touches[|touches| - 1] == Entered(own)
  {
    var own := s.pages[fn];
    assert own in s.stubs && own != NULL;
    LastTouchLeavesContext(Begun(s.(tls := Tls(0, own)), own), body);
  }
}

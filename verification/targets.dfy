/** Symbol target strings: the documented grammar, and the three places that take such a string apart. */
module Targets {
  import opened Bytes
  import opened Vitals

  datatype Selector = SelNone | SelLib | SelFile | SelSym

  /** The documented scopes; a target without scope means the same as one with scope self. */
  datatype Scope = NoScope | Self | Select(selector: Selector, value: CString)

  predicate ValidScope(scope: Scope) {
    scope.Select? ==> scope.selector != SelNone
  }

  function Prefix(selector: Selector): CString {
    match selector
    case SelLib => "lib:"
    case SelFile => "file:"
    case SelSym => "sym:"
    case SelNone => ""
  }

  /** The documented spelling of a target. */
  function Print(name: CString, scope: Scope): CString
    requires ValidScope(scope)
  {
    match scope
    case NoScope => name
    case Self => name + "@" + "self"
    case Select(selector, value) => name + "@" + (Prefix(selector) + value)
  }

  // ---- what the code makes of a string ----

  /** The name in front of the first '@' and what follows it. */
  function Split(target: CString): (r: (CString, Option<CString>)) {
    match IndexOf(target, '@')
    case None => (target, None)
    case Some(i) => (target[..i], Some(target[i + 1..]))
  }

  /** The path a stub looks its library up with; None is NULL, the main executable. */
  function StubPath(target: CString): Option<CString> {
    match Split(target).1
    case None => None
    case Some(path) => if path == "self" then None else Some(path)
  }

  /** Selector and value of a path, or None where the library panics. */
  function Parse(path: CString): Option<(Selector, CString)> {
    if Prefix(SelLib) <= path then Some((SelLib, path[4..]))
    else if Prefix(SelFile) <= path then Some((SelFile, path[5..]))
    else if Prefix(SelSym) <= path then Some((SelSym, path[4..]))
    else if path == "self" then Some((SelNone, ""))
    else None
  }

  /** The scope is none the library knows: looking it up ends the program in a panic. */
  predicate Unreadable(target: CString) {
    StubPath(target).Some? && Parse(StubPath(target).value).None?
  }

  /** Whether a mock takes its target for the main executable's and creates a single stub. */
  function SelfOnly(target: CString): bool {
    match Split(target).1
    case None => true
    case Some(path) => "self" <= path
  }

  // ---- the code ----

  /** Copies the target into `name` and cuts it at the delimiter; the path then starts right behind the cut. */
  method CutName(name: array<char>, target: CString) returns (path: Option<CString>)
    requires name.Length == |target| + 1
    modifies name
    ensures var n := |Split(target).0|; name[..n] == Split(target).0 && name[n] == '\0'
    ensures path == StubPath(target)
    ensures path.Some? ==> var n := |Split(target).0| + 1; name[n..|target|] == path.value && name[|target|] == '\0'
  {
    Vitals.Strcpy(name, target);
    path := None;
    var delim := Vitals.Strchr(target, '@');
    if delim.Some? {
      name[delim.value] := '\0';
      path := Some(target[delim.value + 1..]);
      var self := Vitals.Streq(path.value, "self");
      if self {
        path := None;
      }
    }
  }

  /** The selector in front of the first colon and what follows it; None is a panic. */
  method GetSelector(target: CString) returns (r: Option<(Selector, CString)>)
    ensures r == Parse(target)
    ensures "lib:" <= target ==> r == Some((SelLib, target[4..]))
    ensures "file:" <= target ==> r == Some((SelFile, target[5..]))
    ensures "sym:" <= target ==> r == Some((SelSym, target[4..]))
    ensures target == "self" ==> r == Some((SelNone, ""))
    ensures r == None <==> !("lib:" <= target || "file:" <= target || "sym:" <= target || target == "self")
  {
    var sel := SelNone;
    var rest := target;
    var lib := Vitals.Strneq(target, Prefix(SelLib), 4);
    var file := Vitals.Strneq(target, Prefix(SelFile), 5);
    var sym := Vitals.Strneq(target, Prefix(SelSym), 4);
    var self := Vitals.Streq(target, "self");
    if lib {
      sel := SelLib;
    } else if file {
      sel := SelFile;
    } else if sym {
      sel := SelSym;
    } else if self {
      rest := "";
    } else {
      return None;
    }
    if sel == SelNone {
      return Some((sel, rest));
    }
    FirstColon(target, sel);
    var colon := Vitals.Strchr(target, ':');
    return Some((sel, target[colon.value + 1..]));
  }

  lemma FirstColon(path: CString, sel: Selector)
    requires sel != SelNone && Prefix(sel) <= path
    ensures IndexOf(path, ':') == Some(|Prefix(sel)| - 1)
  {
    var n := |Prefix(sel)| - 1;
    assert path[..n] == Prefix(sel)[..n];
    assert path[n] == Prefix(sel)[n];
    IndexOfUnique(path, ':', n);
  }

  method IsSelfTarget(target: CString) returns (self: bool)
    ensures self == SelfOnly(target)
  {
    var nameEnd := Vitals.Strchr(target, '@');
    if nameEnd.None? {
      return true;
    }
    self := Vitals.Strneq(target[nameEnd.value + 1..], "self", 4);
    assert "self"[..4] == "self";
  }

  // ---- the round trip ----

  /**
   A target with a scope: what stands in front of the first '@' is the name, what follows it the scope. A stub passes
   over the scope exactly when it is "self", a mock creates no second stub exactly when the scope begins so.
   */
  lemma TargetParts(target: CString, name: CString, path: CString)
    requires '@' !in name && target == name + "@" + path
    ensures Split(target) == (name, Some(path))
    ensures StubPath(target) == if path == "self" then None else Some(path)
    ensures SelfOnly(target) <==> |path| >= 4 && path[..4] == "self"
    ensures Unreadable(target) <==> !("lib:" <= path || "file:" <= path || "sym:" <= path || path == "self")
  {
    SplitPrinted(name, path);
  }

  /** A target without a scope. */
  lemma TargetWithoutScope(target: CString)
    requires '@' !in target
    ensures Split(target) == (target, None) && StubPath(target) == None && SelfOnly(target) && !Unreadable(target)
  {
    SplitPlain(target);
  }

  lemma SplitPrinted(name: CString, path: CString)
    requires '@' !in name
    ensures Split(name + "@" + path) == (name, Some(path))
  {
    var target: CString := name + "@" + path;
    assert target[..|name|] == name && target[|name| + 1..] == path;
    IndexOfUnique(target, '@', |name|);
  }

  lemma SplitPlain(name: CString)
    requires '@' !in name
    ensures Split(name) == (name, None)
  {
  }

  lemma ParsePrinted(selector: Selector, value: CString)
    requires selector != SelNone
    ensures Parse(Prefix(selector) + value) == Some((selector, value))
    ensures Prefix(selector) + value != "self" && !("self" <= Prefix(selector) + value)
  {
    var path: CString := Prefix(selector) + value;
    assert path[..3] == Prefix(selector)[..3];
    assert path[|Prefix(selector)|..] == value;
    assert path[0] == Prefix(selector)[0] && path[1] == Prefix(selector)[1];
  }

  /**
   Reading back a printed target gives its name, and its selector and value when it has them, whatever the value
   contains. The stub and the mock agree on which targets mean the main executable alone.
   */
  lemma PrintedTargetIsReadBack(name: CString, scope: Scope)
    requires '@' !in name && ValidScope(scope)
    ensures Split(Print(name, scope)).0 == name
    ensures StubPath(Print(name, scope)).None? <==> !scope.Select?
    ensures SelfOnly(Print(name, scope)) <==> StubPath(Print(name, scope)).None?
    ensures scope.Select? ==>
      && StubPath(Print(name, scope)).Some?
      && Parse(StubPath(Print(name, scope)).value) == Some((scope.selector, scope.value))
  {
    match scope
    case NoScope => SplitPlain(name);
    case Self => SplitPrinted(name, "self");
    case Select(selector, value) =>
      SplitPrinted(name, Prefix(selector) + value);
      ParsePrinted(selector, value);
  }

  /**
   Off the grammar the two tests differ exactly for scopes that start with "self" and go on; looking up such a scope
   panics.
   */
  lemma SelfTestsDiffer(target: CString)
    ensures SelfOnly(target) != StubPath(target).None?
      <==> Split(target).1.Some? && "self" < Split(target).1.value
    ensures SelfOnly(target) != StubPath(target).None?
      ==> StubPath(target).Some? && Parse(StubPath(target).value).None?
  {
    var split := Split(target).1;
    if split.Some? && "self" < split.value {
      assert split.value[0] == 's' && split.value[1] == 'e';
    }
  }

  /** The name alone, which a mock's second stub is given, has no scope. */
  lemma BareNameIsReadable(target: CString)
    ensures StubPath(Split(target).0).None? && !Unreadable(Split(target).0)
  {
    var name := Split(target).0;
    assert '@' !in name;
    SplitPlain(name);
  }

  /** The targets that can be read are those the grammar can print. */
  lemma ReadableIsPrintable(target: CString)
    ensures !Unreadable(target)
      <==> exists name: CString, scope: Scope :: '@' !in name && ValidScope(scope) && target == Print(name, scope)
  {
    if !Unreadable(target) {
      var scope := ScopeOf(target);
      assert target == Print(Split(target).0, scope) by {
        PrintsBack(target);
      }
      assert '@' !in Split(target).0;
    }
    forall name: CString, scope: Scope | '@' !in name && ValidScope(scope) && target == Print(name, scope)
      ensures !Unreadable(target)
    {
      PrintedTargetIsReadBack(name, scope);
    }
  }

  /** The scope that a readable target spells. */
  function ScopeOf(target: CString): (scope: Scope)
    requires !Unreadable(target)
    ensures ValidScope(scope)
  {
    match Split(target).1
    case None => NoScope
    case Some(path) =>
      if path == "self" then Self else Select(Parse(path).value.0, Parse(path).value.1)
  }

  lemma PrintsBack(target: CString)
    requires !Unreadable(target)
    ensures target == Print(Split(target).0, ScopeOf(target))
  {
    if Split(target).1.Some? {
      var name, path := Split(target).0, Split(target).1.value;
      assert target == name + "@" + path;
      if path != "self" {
        hide Split, IndexOf;
        ParsesBack(path);
      }
    }
  }

  lemma ParsesBack(path: CString)
    requires Parse(path).Some? && path != "self"
    ensures Parse(path).value.0 != SelNone && path == Prefix(Parse(path).value.0) + Parse(path).value.1
  {
    var n := if "file:" <= path then 5 else 4;
    assert path == path[..n] + path[n..];
  }

  /** An unknown kind of scope; `.noabort` makes no difference to the panic it causes. */
  lemma UnknownScopeIsUnreadable()
    ensures Split("f@x") == ("f", Some("x")) && Unreadable("f@x")
  {
    SplitPrinted("f", "x");
    assert "f" + "@" + "x" == "f@x";
  }
}

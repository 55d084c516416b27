/** The Conventional Commits message builder (internal/services/commit_builder.go):
    scope detection from file paths, commit-type classification by ordered
    keyword groups, description cleaning and the `type(scope)!: description`
    serialisation with optional body and footer. */
module CommitBuilder {
  import opened Text
  import opened Models

  // ---------------------------------------------------------------------
  // Commit types and messages

  /** The eleven named commit types. A message's type is any text, as Go's
      `type CommitType string` allows; these are the ones the builder picks. */
  datatype CommitType =
    | Feat | Fix | Refactor | Docs | Style | Test | Chore | Perf | Build | CI | Revert
  {
    /** The type's Conventional Commits keyword. */
    function Name(): (r: Bytes)
    {
      match this
      case Feat => Ascii("feat")
      case Fix => Ascii("fix")
      case Refactor => Ascii("refactor")
      case Docs => Ascii("docs")
      case Style => Ascii("style")
      case Test => Ascii("test")
      case Chore => Ascii("chore")
      case Perf => Ascii("perf")
      case Build => Ascii("build")
      case CI => Ascii("ci")
      case Revert => Ascii("revert")
    }
  }

  /** Type keywords are non-empty runs of lower-case letters. */
  lemma NameLetters(t: CommitType)
    ensures t.Name() != [] && forall i :: 0 <= i < |t.Name()| ==> 97 <= t.Name()[i] <= 122
  {
  }

  /** A type text the first line reads back unambiguously: single-line, with
      no ':' or '(' and not ending in '!'. */
  predicate PlainType(kind: Bytes)
  {
    Newline !in kind && Colon !in kind && OpenParen !in kind && !HasSuffix(kind, [Bang])
  }

  /** Every named type is plain. */
  lemma NamedTypePlain(t: CommitType)
    ensures PlainType(t.Name())
  {
    var n := t.Name();
    NameLetters(t);
    assert n[|n| - 1..] == [n[|n| - 1]];
  }

  datatype CommitMessage = CommitMessage(
    kind: Bytes, scope: Bytes, description: Bytes,
    body: Bytes, footer: Bytes, isBreaking: bool)

  const OpenParen: byte := 40
  const CloseParen: byte := 41
  const Bang: byte := 33
  const Dot: byte := 46

  // ---------------------------------------------------------------------
  // Paths (path/filepath)

  /** The path with every trailing '/' removed. */
  function TrimTrailingSlashes(s: Bytes): (r: Bytes)
    ensures |r| <= |s| && r == s[..|r|]
    ensures r == [] || r[|r| - 1] != Slash
    ensures forall k :: |r| <= k < |s| ==> s[k] == Slash
  {
    if s != [] && s[|s| - 1] == Slash then TrimTrailingSlashes(s[..|s| - 1]) else s
  }

  /** An element filepath.Clean keeps as it is: not empty, not "." and not "..". */
  predicate Regular(e: Bytes)
  {
    e != [] && e != [Dot] && e != [Dot, Dot]
  }

  /** One element of filepath.Clean's pass: empty and "." elements vanish;
      ".." removes the element kept before it, vanishes at the root, and is
      kept at the front of a relative path; any other element is kept. */
  function CleanStep(rooted: bool, kept: seq<Bytes>, e: Bytes): seq<Bytes>
  {
    if e == [] || e == [Dot] then kept
    else if e == [Dot, Dot] then
      if kept != [] && kept[|kept| - 1] != [Dot, Dot] then kept[..|kept| - 1]
      else if rooted then kept
      else kept + [e]
    else kept + [e]
  }

  /** filepath.Clean's pass over the elements, from left to right. */
  function CleanElems(rooted: bool, elems: seq<Bytes>, kept: seq<Bytes>): seq<Bytes>
    decreases |elems|
  {
    if elems == [] then kept
    else CleanElems(rooted, elems[1..], CleanStep(rooted, kept, elems[0]))
  }

  /** filepath.Clean: the kept elements joined by single slashes, behind a
      slash when the path is rooted; "." when nothing is left of a relative path. */
  function Clean(p: Bytes): (r: Bytes)
    ensures r != []
  {
    var rooted := Rooted(p);
    var body := Join(CleanElems(rooted, Split(p, Slash), []), Slash);
    if rooted then [Slash] + body
    else if body == [] then [Dot] else body
  }

  /** filepath.Dir: Clean of everything up to and including the last '/';
      "." when there is no '/'. */
  function Dir(p: Bytes): (d: Bytes)
    ensures d != []
  {
    Clean(p[..LastIndexByte(p, Slash) + 1])
  }

  /** filepath.Base: the last element after trailing slashes are removed. */
  function Base(p: Bytes): (b: Bytes)
    ensures b != []
  {
    if p == [] then [Dot]
    else
      var q := TrimTrailingSlashes(p);
      if q == [] then [Slash]
      else
        var i := LastIndexByte(q, Slash);
        q[i + 1..]
  }

  /** The pass over a concatenation is the pass over its second part, started
      from what the first part kept. */
  lemma {:induction false} CleanElemsConcat(rooted: bool, a: seq<Bytes>, b: seq<Bytes>, kept: seq<Bytes>)
    ensures CleanElems(rooted, a + b, kept) == CleanElems(rooted, b, CleanElems(rooted, a, kept))
    decreases |a|
  {
    if a == [] {
      assert a + b == b;
    } else {
      assert (a + b)[0] == a[0] && (a + b)[1..] == a[1..] + b;
      CleanElemsConcat(rooted, a[1..], b, CleanStep(rooted, kept, a[0]));
    }
  }

  /** Regular elements are all kept, in order. */
  lemma {:induction false} CleanKeepsRegular(rooted: bool, elems: seq<Bytes>, kept: seq<Bytes>)
    requires forall k :: 0 <= k < |elems| ==> Regular(elems[k])
    ensures CleanElems(rooted, elems, kept) == kept + elems
    decreases |elems|
  {
    if elems != [] {
      CleanKeepsRegular(rooted, elems[1..], kept + [elems[0]]);
      assert kept + [elems[0]] + elems[1..] == kept + elems;
    }
  }

  /** A relative path all of whose elements are regular: no leading, trailing
      or repeated '/', and no "." or ".." element. */
  predicate CleanRelative(d: Bytes)
  {
    forall k :: 0 <= k < |Split(d, Slash)| ==> Regular(Split(d, Slash)[k])
  }

  /** Paths that agree on being rooted and on the elements the pass keeps
      have the same Clean. */
  lemma CleanByElems(p: Bytes, q: Bytes)
    requires Rooted(p) == Rooted(q)
    requires CleanElems(Rooted(p), Split(p, Slash), []) == CleanElems(Rooted(p), Split(q, Slash), [])
    ensures Clean(p) == Clean(q)
  {
  }

  /** An empty or "." element anywhere leaves the pass unchanged. */
  lemma CleanDropsVanishing(rooted: bool, x: seq<Bytes>, e: Bytes, y: seq<Bytes>)
    requires e == [] || e == [Dot]
    ensures CleanElems(rooted, x + [e] + y, []) == CleanElems(rooted, x + y, [])
  {
    assert x + [e] + y == x + ([e] + y);
    CleanElemsConcat(rooted, x, [e] + y, []);
    CleanElemsConcat(rooted, x, y, []);
    assert ([e] + y)[1..] == y;
  }

  /** A regular element followed by ".." leaves the pass unchanged. */
  lemma CleanCancelsParent(rooted: bool, x: seq<Bytes>, e: Bytes, y: seq<Bytes>)
    requires Regular(e)
    ensures CleanElems(rooted, x + [e, [Dot, Dot]] + y, []) == CleanElems(rooted, x + y, [])
  {
    var kept := CleanElems(rooted, x, []);
    assert x + [e, [Dot, Dot]] + y == x + ([e, [Dot, Dot]] + y);
    CleanElemsConcat(rooted, x, [e, [Dot, Dot]] + y, []);
    CleanElemsConcat(rooted, x, y, []);
    assert ([e, [Dot, Dot]] + y)[0] == e && ([e, [Dot, Dot]] + y)[1..] == [[Dot, Dot]] + y;
    assert ([[Dot, Dot]] + y)[0] == [Dot, Dot] && ([[Dot, Dot]] + y)[1..] == y;
    assert (kept + [e])[..|kept|] == kept;
  }

  /** A trailing '/' adds one empty element. */
  lemma SplitTrailingSep(d: Bytes)
    ensures Split(d + [Slash], Slash) == Split(d, Slash) + [[]]
  {
    SplitConcat(d, [], Slash);
    assert d + [Slash] + [] == d + [Slash];
    assert Split([], Slash) == [[]];
  }

  /** A clean relative path is its own Clean, with or without a trailing '/'. */
  lemma CleanOfClean(d: Bytes)
    requires CleanRelative(d)
    ensures Clean(d) == d && Clean(d + [Slash]) == d
  {
    var elems := Split(d, Slash);
    assert Regular(elems[0]);
    CleanKeepsRegular(false, elems, []);
    assert [] + elems == elems;
    JoinSplit(d, Slash);
    SplitTrailingSep(d);
    CleanDropsVanishing(false, elems, [], []);
    assert elems + [[]] + [] == elems + [[]] && elems + [] == elems;
    assert (d + [Slash])[0] == d[0];
    CleanByElems(d + [Slash], d);
  }

  /** Clean treats a repeated '/' as a single one. */
  lemma CleanRepeatedSlash(a: Bytes, b: Bytes)
    ensures Clean(a + [Slash, Slash] + b) == Clean(a + [Slash] + b)
  {
    CleanVanishingElement(a, [], b);
    assert a + [Slash] + ([] + [Slash] + b) == a + [Slash, Slash] + b;
  }

  /** Clean drops a "." element. */
  lemma CleanDotElement(a: Bytes, b: Bytes)
    ensures Clean(a + [Slash, Dot, Slash] + b) == Clean(a + [Slash] + b)
  {
    CleanVanishingElement(a, [Dot], b);
    assert a + [Slash] + ([Dot] + [Slash] + b) == a + [Slash, Dot, Slash] + b;
  }

  /** Whether Clean's result starts with '/'. */
  predicate Rooted(p: Bytes)
  {
    p != [] && p[0] == Slash
  }

  /** An empty or "." element between slashes leaves the pass unchanged. */
  lemma VanishingElems(a: Bytes, e: Bytes, b: Bytes)
    requires e == [] || e == [Dot]
    ensures var p, q := a + [Slash] + (e + [Slash] + b), a + [Slash] + b;
      Rooted(p) == Rooted(q) &&
      CleanElems(Rooted(p), Split(p, Slash), []) == CleanElems(Rooted(p), Split(q, Slash), [])
  {
    var p := a + [Slash] + (e + [Slash] + b);
    assert p[0] == (a + [Slash] + b)[0];
    SplitOnePiece(a, e, b, Slash);
    SplitConcat(a, b, Slash);
    var sa, sb := Split(a, Slash), Split(b, Slash);
    assert sa + ([e] + sb) == sa + [e] + sb;
    CleanDropsVanishing(Rooted(p), sa, e, sb);
  }

  /** An empty or "." element between slashes does not change Clean. */
  lemma CleanVanishingElement(a: Bytes, e: Bytes, b: Bytes)
    requires e == [] || e == [Dot]
    ensures Clean(a + [Slash] + (e + [Slash] + b)) == Clean(a + [Slash] + b)
  {
    VanishingElems(a, e, b);
    CleanByElems(a + [Slash] + (e + [Slash] + b), a + [Slash] + b);
  }

  /** A regular element and the ".." after it leave the pass unchanged. */
  lemma ParentElems(a: Bytes, e: Bytes, b: Bytes)
    requires Regular(e) && Slash !in e
    ensures var p, q := a + [Slash] + (e + [Slash] + ([Dot, Dot] + [Slash] + b)), a + [Slash] + b;
      Rooted(p) == Rooted(q) &&
      CleanElems(Rooted(p), Split(p, Slash), []) == CleanElems(Rooted(p), Split(q, Slash), [])
  {
    var p := a + [Slash] + (e + [Slash] + ([Dot, Dot] + [Slash] + b));
    assert p[0] == (a + [Slash] + b)[0];
    SplitTwoPieces(a, e, [Dot, Dot], b, Slash);
    SplitConcat(a, b, Slash);
    var sa, sb := Split(a, Slash), Split(b, Slash);
    assert sa + ([e] + ([[Dot, Dot]] + sb)) == sa + [e, [Dot, Dot]] + sb;
    CleanCancelsParent(Rooted(p), sa, e, sb);
  }

  /** Clean cancels a regular element against the ".." that follows it. */
  lemma CleanParentElement(a: Bytes, e: Bytes, b: Bytes)
    requires Regular(e) && Slash !in e
    ensures Clean(a + [Slash] + (e + [Slash] + ([Dot, Dot] + [Slash] + b))) == Clean(a + [Slash] + b)
  {
    ParentElems(a, e, b);
    CleanByElems(a + [Slash] + (e + [Slash] + ([Dot, Dot] + [Slash] + b)), a + [Slash] + b);
  }

  /** The directory of a file is Clean of the path up to its last '/'. */
  lemma DirOfFile(prefix: Bytes, name: Bytes)
    requires Slash !in name
    ensures Dir(prefix + [Slash] + name) == Clean(prefix + [Slash])
  {
    var p := prefix + [Slash] + name;
    assert p[|prefix| + 1..] == name;
    LastIndexByteAt(p, Slash, |prefix|);
    assert p[..|prefix| + 1] == prefix + [Slash];
  }

  /** A path `d/name` with a clean relative `d` splits back into `d` and `name`. */
  lemma DirBase(d: Bytes, name: Bytes)
    requires CleanRelative(d)
    requires name != [] && Slash !in name
    ensures Dir(d + [Slash] + name) == d
    ensures Base(d + [Slash] + name) == name
  {
    DirOfFile(d, name);
    CleanOfClean(d);
    BaseOfFile(d, name);
  }

  // ---------------------------------------------------------------------
  // Scopes

  /** A test getFileScope applies to a directory or a file name. */
  datatype Pattern = Within(text: Bytes) | EndsWith(text: Bytes)

  /** A scope rule: the scope it assigns when one of its patterns holds of the
      file's directory (OnDir) or of its file name (OnName). */
  datatype ScopeRule =
    | OnDir(patterns: seq<Pattern>, scope: Bytes)
    | OnName(patterns: seq<Pattern>, scope: Bytes)

  predicate PatternHolds(p: Pattern, s: Bytes)
  {
    match p
    case Within(t) => Contains(s, t)
    case EndsWith(t) => HasSuffix(s, t)
  }

  predicate RuleHolds(rule: ScopeRule, dir: Bytes, name: Bytes)
  {
    var s := if rule.OnDir? then dir else name;
    exists k :: 0 <= k < |rule.patterns| && PatternHolds(rule.patterns[k], s)
  }

  /** The directory rules of getFileScope, in the order they are tried. */
  const DirRules: seq<ScopeRule> := [
    OnDir([Within(Ascii("internal/handlers"))], Ascii("handlers")),
    OnDir([Within(Ascii("internal/services"))], Ascii("services")),
    OnDir([Within(Ascii("internal/models"))], Ascii("models")),
    OnDir([Within(Ascii("internal/config"))], Ascii("config")),
    OnDir([Within(Ascii("cmd/"))], Ascii("cmd")),
    OnDir([Within(Ascii("pkg/"))], Ascii("pkg"))
  ]

  /** The file-name rules, tried after every directory rule has failed. */
  const NameRules: seq<ScopeRule> := [
    OnName([Within(Ascii("test"))], Ascii("test")),
    OnName([EndsWith(Ascii(".md"))], Ascii("docs")),
    OnName([Within(Ascii("docker")), Within(Ascii("Dockerfile"))], Ascii("docker")),
    OnName([Within(Ascii("go.mod")), Within(Ascii("go.sum"))], Ascii("deps"))
  ]

  const ScopeRules: seq<ScopeRule> := DirRules + NameRules

  /** The scope of the first rule that holds; "" when none does. */
  function FirstRule(rules: seq<ScopeRule>, dir: Bytes, name: Bytes): Bytes
  {
    if rules == [] then []
    else if RuleHolds(rules[0], dir, name) then rules[0].scope
    else FirstRule(rules[1..], dir, name)
  }

  /** Rules that do not hold are passed over. */
  lemma {:induction false} FirstRuleSkip(rules: seq<ScopeRule>, dir: Bytes, name: Bytes, k: nat)
    requires k <= |rules|
    requires forall j :: 0 <= j < k ==> !RuleHolds(rules[j], dir, name)
    ensures FirstRule(rules, dir, name) == FirstRule(rules[k..], dir, name)
  {
    if k > 0 {
      assert !RuleHolds(rules[0], dir, name);
      assert rules[1..][k - 1..] == rules[k..];
      FirstRuleSkip(rules[1..], dir, name, k - 1);
    }
  }

  /** The first rule that holds decides. */
  lemma FirstRuleHit(rules: seq<ScopeRule>, dir: Bytes, name: Bytes, k: nat)
    requires k < |rules| && RuleHolds(rules[k], dir, name)
    requires forall j :: 0 <= j < k ==> !RuleHolds(rules[j], dir, name)
    ensures FirstRule(rules, dir, name) == rules[k].scope
  {
    FirstRuleSkip(rules, dir, name, k);
  }

  /** With non-empty scopes, the result is "" exactly when no rule holds. */
  lemma {:induction false} FirstRuleNone(rules: seq<ScopeRule>, dir: Bytes, name: Bytes)
    requires forall j :: 0 <= j < |rules| ==> rules[j].scope != []
    ensures FirstRule(rules, dir, name) == [] <==> forall j :: 0 <= j < |rules| ==> !RuleHolds(rules[j], dir, name)
  {
    if rules != [] {
      FirstRuleNone(rules[1..], dir, name);
      assert forall j :: 1 <= j < |rules| ==> rules[j] == rules[1..][j - 1];
    }
  }

  /** Trying a + b is trying a, then b when a yields nothing. */
  lemma {:induction false} FirstRuleAppend(a: seq<ScopeRule>, b: seq<ScopeRule>, dir: Bytes, name: Bytes)
    requires forall j :: 0 <= j < |a| ==> a[j].scope != []
    ensures FirstRule(a + b, dir, name) ==
            (if FirstRule(a, dir, name) != [] then FirstRule(a, dir, name) else FirstRule(b, dir, name))
  {
    if a == [] {
      assert a + b == b;
    } else {
      assert (a + b)[0] == a[0];
      assert (a + b)[1..] == a[1..] + b;
      FirstRuleAppend(a[1..], b, dir, name);
    }
  }

  /** getFileScope: the first rule of the list that holds of the file's
      directory or name. */
  function FileScope(path: Bytes): Bytes
  {
    FirstRule(ScopeRules, Dir(path), Base(path))
  }

  /** The directory rules win over the file-name rules: when a directory rule
      holds, the file name plays no part. */
  lemma DirectoryRulesFirst(path: Bytes)
    ensures FirstRule(DirRules, Dir(path), Base(path)) != [] ==>
              FileScope(path) == FirstRule(DirRules, Dir(path), Base(path))
    ensures FirstRule(DirRules, Dir(path), Base(path)) == [] ==>
              FileScope(path) == FirstRule(NameRules, Dir(path), Base(path))
  {
    RuleScopesNonEmpty();
    FirstRuleAppend(DirRules, NameRules, Dir(path), Base(path));
  }

  lemma RuleScopesNonEmpty()
    ensures forall j :: 0 <= j < |DirRules| ==> DirRules[j].scope != []
    ensures forall j :: 0 <= j < |ScopeRules| ==> ScopeRules[j].scope != []
  {
    assert forall j :: 0 <= j < |DirRules| ==> DirRules[j].scope != [];
    assert forall j :: 0 <= j < |NameRules| ==> NameRules[j].scope != [];
    assert forall j :: 0 <= j < |ScopeRules| ==>
      ScopeRules[j] == if j < |DirRules| then DirRules[j] else NameRules[j - |DirRules|];
  }

  /** A file is without a scope exactly when no rule holds of it. */
  lemma FileScopeNone(path: Bytes)
    ensures FileScope(path) == [] <==>
            forall j :: 0 <= j < |ScopeRules| ==> !RuleHolds(ScopeRules[j], Dir(path), Base(path))
  {
    RuleScopesNonEmpty();
    FirstRuleNone(ScopeRules, Dir(path), Base(path));
  }

  /** The file name of `prefix/name` is `name`. */
  lemma BaseOfFile(prefix: Bytes, name: Bytes)
    requires name != [] && Slash !in name
    ensures Base(prefix + [Slash] + name) == name
  {
    var p := prefix + [Slash] + name;
    assert p[|prefix| + 1..] == name;
    LastIndexByteAt(p, Slash, |prefix|);
    assert TrimTrailingSlashes(p) == p;
  }

  /** Files with the same directory and name have the same scope. */
  lemma SameDirSameScope(p: Bytes, q: Bytes)
    requires Dir(p) == Dir(q) && Base(p) == Base(q)
    ensures FileScope(p) == FileScope(q)
  {
  }

  /** A repeated '/' leaves the directory and name of `a//b/name` those of `a/b/name`. */
  lemma RepeatedSlashSameDir(a: Bytes, b: Bytes, name: Bytes)
    requires name != [] && Slash !in name
    ensures var p, q := a + [Slash, Slash] + b + [Slash] + name, a + [Slash] + b + [Slash] + name;
      Dir(p) == Dir(q) && Base(p) == Base(q)
  {
    DirOfFile(a + [Slash, Slash] + b, name);
    DirOfFile(a + [Slash] + b, name);
    BaseOfFile(a + [Slash, Slash] + b, name);
    BaseOfFile(a + [Slash] + b, name);
    CleanRepeatedSlashEnd(a, b);
  }

  lemma CleanRepeatedSlashEnd(a: Bytes, b: Bytes)
    ensures Clean(a + [Slash, Slash] + b + [Slash]) == Clean(a + [Slash] + b + [Slash])
  {
    CleanRepeatedSlash(a, b + [Slash]);
    assert a + [Slash, Slash] + b + [Slash] == a + [Slash, Slash] + (b + [Slash]);
    assert a + [Slash] + b + [Slash] == a + [Slash] + (b + [Slash]);
  }

  /** A repeated '/' in the directory does not change a file's scope:
      `internal//handlers/x.go` is in scope `handlers`. */
  lemma RepeatedSlashSameScope(a: Bytes, b: Bytes, name: Bytes)
    requires name != [] && Slash !in name
    ensures FileScope(a + [Slash, Slash] + b + [Slash] + name) == FileScope(a + [Slash] + b + [Slash] + name)
  {
    RepeatedSlashSameDir(a, b, name);
    SameDirSameScope(a + [Slash, Slash] + b + [Slash] + name, a + [Slash] + b + [Slash] + name);
  }

  /** An element and the ".." after it leave the directory and name of
      `a/e/../b/name` those of `a/b/name`. */
  lemma ParentElementSameDir(a: Bytes, e: Bytes, b: Bytes, name: Bytes)
    requires Regular(e) && Slash !in e
    requires name != [] && Slash !in name
    ensures var p, q := a + [Slash] + e + [Slash, Dot, Dot, Slash] + b + [Slash] + name, a + [Slash] + b + [Slash] + name;
      Dir(p) == Dir(q) && Base(p) == Base(q)
  {
    DirOfFile(a + [Slash] + e + [Slash, Dot, Dot, Slash] + b, name);
    DirOfFile(a + [Slash] + b, name);
    BaseOfFile(a + [Slash] + e + [Slash, Dot, Dot, Slash] + b, name);
    BaseOfFile(a + [Slash] + b, name);
    CleanParentElementEnd(a, e, b);
  }

  lemma CleanParentElementEnd(a: Bytes, e: Bytes, b: Bytes)
    requires Regular(e) && Slash !in e
    ensures Clean(a + [Slash] + e + [Slash, Dot, Dot, Slash] + b + [Slash]) == Clean(a + [Slash] + b + [Slash])
  {
    CleanParentElement(a, e, b + [Slash]);
    assert a + [Slash] + e + [Slash, Dot, Dot, Slash] + b + [Slash] ==
           a + [Slash] + (e + [Slash] + ([Dot, Dot] + [Slash] + (b + [Slash])));
    assert a + [Slash] + b + [Slash] == a + [Slash] + (b + [Slash]);
  }

  /** An element and the ".." after it do not change a file's scope:
      `internal/handlers/../services/x.go` is in scope `services`. */
  lemma ParentElementSameScope(a: Bytes, e: Bytes, b: Bytes, name: Bytes)
    requires Regular(e) && Slash !in e
    requires name != [] && Slash !in name
    ensures FileScope(a + [Slash] + e + [Slash, Dot, Dot, Slash] + b + [Slash] + name) ==
            FileScope(a + [Slash] + b + [Slash] + name)
  {
    ParentElementSameDir(a, e, b, name);
    SameDirSameScope(a + [Slash] + e + [Slash, Dot, Dot, Slash] + b + [Slash] + name, a + [Slash] + b + [Slash] + name);
  }

  /** A pattern longer than the text is never contained in it. */
  lemma NotContainsLonger(s: Bytes, t: Bytes)
    requires |t| > |s|
    ensures !Contains(s, t)
  {
  }

  /** A file under internal/handlers is in scope `handlers` whatever its name
      says, e.g. `internal/handlers/x_test.go`. */
  lemma HandlersBeforeTest(d: Bytes, name: Bytes)
    requires CleanRelative(d)
    requires name != [] && Slash !in name
    requires Contains(d, Ascii("internal/handlers"))
    ensures FileScope(d + [Slash] + name) == Ascii("handlers")
  {
    DirBase(d, name);
    assert RuleHolds(ScopeRules[0], d, name) by {
      assert PatternHolds(ScopeRules[0].patterns[0], d);
    }
    FirstRuleHit(ScopeRules, d, name, 0);
  }

  /** Every directory rule has one `Within` pattern of more than three bytes. */
  lemma DirPatternsLong()
    ensures forall j :: 0 <= j < |DirRules| ==>
      |DirRules[j].patterns| == 1 && DirRules[j].patterns[0].Within? && |DirRules[j].patterns[0].text| > 3
  {
  }

  /** A file directly under `cmd` has directory `cmd`, which does not contain
      `cmd/`, so only the file-name rules apply to it (e.g. `cmd/main.go`). */
  lemma TopLevelCmdFile(name: Bytes)
    requires name != [] && Slash !in name
    ensures FileScope(Ascii("cmd/") + name) == FirstRule(NameRules, Ascii("cmd"), name)
  {
    var d := Ascii("cmd");
    var path := Ascii("cmd/") + name;
    assert path == d + [Slash] + name;
    assert Slash !in d && Regular(d);
    SplitNoSep(d, Slash);
    DirBase(d, name);
    ShortDirMissesDirRules(d, name);
    RuleScopesNonEmpty();
    FirstRuleAppend(DirRules, NameRules, d, name);
  }

  /** No directory rule holds of a directory of at most three bytes. */
  lemma ShortDirMissesDirRules(d: Bytes, name: Bytes)
    requires |d| <= 3
    ensures FirstRule(DirRules, d, name) == []
  {
    DirPatternsLong();
    forall j | 0 <= j < |DirRules|
      ensures !RuleHolds(DirRules[j], d, name)
    {
      NotContainsLonger(d, DirRules[j].patterns[0].text);
    }
    RuleScopesNonEmpty();
    FirstRuleNone(DirRules, d, name);
  }

  /** How many of the files scopeOf maps to s. */
  function Tally(files: seq<Bytes>, scopeOf: Bytes -> Bytes, s: Bytes): nat
  {
    if files == [] then 0
    else Tally(files[..|files| - 1], scopeOf, s) + (if scopeOf(files[|files| - 1]) == s then 1 else 0)
  }

  /** How many of the files getFileScope maps to s. */
  function ScopeCount(files: seq<Bytes>, s: Bytes): nat
  {
    Tally(files, FileScope, s)
  }

  /** Counting one more file adds one to the count of its scope only. */
  lemma TallyStep(files: seq<Bytes>, scopeOf: Bytes -> Bytes, i: nat)
    requires i < |files|
    ensures forall s :: Tally(files[..i + 1], scopeOf, s) ==
                        Tally(files[..i], scopeOf, s) + (if scopeOf(files[i]) == s then 1 else 0)
  {
    assert files[..i + 1][..i] == files[..i];
    assert files[..i + 1][i] == files[i];
  }

  lemma {:induction false} TallyPositive(files: seq<Bytes>, scopeOf: Bytes -> Bytes, k: nat)
    requires k < |files|
    ensures Tally(files, scopeOf, scopeOf(files[k])) > 0
  {
    if k < |files| - 1 {
      assert files[..|files| - 1][k] == files[k];
      TallyPositive(files[..|files| - 1], scopeOf, k);
    }
  }

  lemma {:induction false} TallyZero(files: seq<Bytes>, scopeOf: Bytes -> Bytes, s: Bytes)
    requires forall k :: 0 <= k < |files| ==> scopeOf(files[k]) != s
    ensures Tally(files, scopeOf, s) == 0
  {
    if files != [] {
      TallyZero(files[..|files| - 1], scopeOf, s);
    }
  }

  /** A scope that is counted at least once is the scope of some file. */
  lemma {:induction false} TallyWitness(files: seq<Bytes>, scopeOf: Bytes -> Bytes, s: Bytes)
    requires Tally(files, scopeOf, s) > 0
    ensures exists k :: 0 <= k < |files| && scopeOf(files[k]) == s
  {
    var last := |files| - 1;
    if scopeOf(files[last]) != s {
      TallyWitness(files[..last], scopeOf, s);
      var k :| 0 <= k < last && scopeOf(files[..last][k]) == s;
      assert files[k] == files[..last][k];
    }
  }

  /** The scopes detectScope may return: "" when no file has a scope, and
      otherwise a non-empty scope whose count is maximal (ties are broken by
      map iteration order, so any maximal scope is allowed). */
  ghost predicate IsPreferredScope(files: seq<Bytes>, s: Bytes)
  {
    if forall k :: 0 <= k < |files| ==> FileScope(files[k]) == [] then s == []
    else s != [] && ScopeCount(files, s) > 0 &&
         forall t :: t != [] ==> ScopeCount(files, t) <= ScopeCount(files, s)
  }

  /** detectScope: count the scope of every file, then keep a scope whose count
      no other beats. */
  method DetectScope(files: seq<Bytes>) returns (selected: Bytes)
    ensures IsPreferredScope(files, selected)
    ensures selected == [] <==> forall k :: 0 <= k < |files| ==> FileScope(files[k]) == []
    ensures selected != [] ==> exists k :: 0 <= k < |files| && FileScope(files[k]) == selected
  {
    var scopeMap := CountScopes(files, FileScope);
    selected := MostFrequent(scopeMap);
    if forall k :: 0 <= k < |files| ==> FileScope(files[k]) == [] {
      forall s | s != []
        ensures ScopeCount(files, s) == 0
      {
        TallyZero(files, FileScope, s);
      }
    } else {
      var k :| 0 <= k < |files| && FileScope(files[k]) != [];
      TallyPositive(files, FileScope, k);
    }
    if selected != [] {
      TallyWitness(files, FileScope, selected);
    }
  }

  /** The first loop of detectScope: the number of files of each non-empty
      scope, with getFileScope passed in as scopeOf. */
  method CountScopes(files: seq<Bytes>, scopeOf: Bytes -> Bytes) returns (scopeMap: map<Bytes, nat>)
    ensures forall s :: s in scopeMap ==> s != [] && scopeMap[s] == Tally(files, scopeOf, s) > 0
    ensures forall s :: s != [] && s !in scopeMap ==> Tally(files, scopeOf, s) == 0
  {
    scopeMap := map[];
    var i := 0;
    while i < |files|
      invariant 0 <= i <= |files|
      invariant forall s :: s in scopeMap ==> s != [] && scopeMap[s] == Tally(files[..i], scopeOf, s) > 0
      invariant forall s :: s != [] && s !in scopeMap ==> Tally(files[..i], scopeOf, s) == 0
    {
      TallyStep(files, scopeOf, i);
      var scope := scopeOf(files[i]);
      if scope != [] {
        var n := if scope in scopeMap then scopeMap[scope] else 0;
        scopeMap := scopeMap[scope := n + 1];
      }
      i := i + 1;
    }
    assert files[..i] == files;
  }

  /** The second loop of detectScope: a key with the largest count, or "" for
      an empty map. The counting loop only makes non-empty keys with positive
      counts. */
  method MostFrequent(scopeMap: map<Bytes, nat>) returns (selected: Bytes)
    requires forall s :: s in scopeMap ==> s != [] && scopeMap[s] > 0
    ensures selected == [] <==> scopeMap == map[]
    ensures selected != [] ==> selected in scopeMap && forall s :: s in scopeMap ==> scopeMap[s] <= scopeMap[selected]
  {
    var maxCount := 0;
    selected := [];
    var remaining := scopeMap.Keys;
    while remaining != {}
      invariant remaining <= scopeMap.Keys
      invariant selected == [] <==> maxCount == 0
      invariant selected != [] ==> selected in scopeMap && scopeMap[selected] == maxCount
      invariant forall s :: s in scopeMap && s !in remaining ==> scopeMap[s] <= maxCount
      invariant selected == [] ==> remaining == scopeMap.Keys
      decreases |remaining|
    {
      var s :| s in remaining;
      if scopeMap[s] > maxCount {
        maxCount := scopeMap[s];
        selected := s;
      }
      remaining := remaining - {s};
    }
  }

  // ---------------------------------------------------------------------
  // Commit types

  // UTF-8 bytes of the Chinese keywords, named by their pinyin.
  const Xiufu: Bytes := [0xE4, 0xBF, 0xAE, 0xE5, 0xA4, 0x8D]  // 修复
  const Jiejue: Bytes := [0xE8, 0xA7, 0xA3, 0xE5, 0x86, 0xB3]  // 解决
  const Cuowu: Bytes := [0xE9, 0x94, 0x99, 0xE8, 0xAF, 0xAF]  // 错误
  const Wenti: Bytes := [0xE9, 0x97, 0xAE, 0xE9, 0xA2, 0x98]  // 问题
  const Yichang: Bytes := [0xE5, 0xBC, 0x82, 0xE5, 0xB8, 0xB8]  // 异常
  const Guzhang: Bytes := [0xE6, 0x95, 0x85, 0xE9, 0x9A, 0x9C]  // 故障
  const Chonggou: Bytes := [0xE9, 0x87, 0x8D, 0xE6, 0x9E, 0x84]  // 重构
  const Youhua: Bytes := [0xE4, 0xBC, 0x98, 0xE5, 0x8C, 0x96]  // 优化
  const Zhengli: Bytes := [0xE6, 0x95, 0xB4, 0xE7, 0x90, 0x86]  // 整理
  const Wendang: Bytes := [0xE6, 0x96, 0x87, 0xE6, 0xA1, 0xA3]  // 文档
  const Zhushi: Bytes := [0xE6, 0xB3, 0xA8, 0xE9, 0x87, 0x8A]  // 注释
  const Shuoming: Bytes := [0xE8, 0xAF, 0xB4, 0xE6, 0x98, 0x8E]  // 说明
  const Ceshi: Bytes := [0xE6, 0xB5, 0x8B, 0xE8, 0xAF, 0x95]  // 测试
  const Danyuan: Bytes := [0xE5, 0x8D, 0x95, 0xE5, 0x85, 0x83]  // 单元
  const Jicheng: Bytes := [0xE9, 0x9B, 0x86, 0xE6, 0x88, 0x90]  // 集成
  const Xingneng: Bytes := [0xE6, 0x80, 0xA7, 0xE8, 0x83, 0xBD]  // 性能
  const Sudu: Bytes := [0xE9, 0x80, 0x9F, 0xE5, 0xBA, 0xA6]  // 速度
  const Goujian: Bytes := [0xE6, 0x9E, 0x84, 0xE5, 0xBB, 0xBA]  // 构建

  const FixKeywords: seq<Bytes> :=
    [Xiufu, Jiejue, Ascii("fix"), Ascii("solve"), Ascii("bug"), Cuowu, Wenti, Yichang, Guzhang]
  const RefactorKeywords: seq<Bytes> :=
    [Chonggou, Youhua, Ascii("refactor"), Ascii("optimize"), Ascii("improve"), Ascii("clean"), Zhengli]
  const DocsKeywords: seq<Bytes> :=
    [Wendang, Ascii("doc"), Ascii("readme"), Zhushi, Shuoming]
  const TestKeywords: seq<Bytes> :=
    [Ceshi, Ascii("test"), Danyuan + Ceshi, Jicheng + Ceshi]
  const PerfKeywords: seq<Bytes> :=
    [Xingneng, Ascii("performance"), Ascii("perf"), Sudu, Youhua + Xingneng]
  const CiKeywords: seq<Bytes> :=
    [Ascii("ci"), Ascii("cd"), Ascii("pipeline"), Ascii("workflow"), Ascii("actions"), Ascii("jenkins")]
  const BuildKeywords: seq<Bytes> :=
    [Goujian, Ascii("build"), Ascii("webpack"), Ascii("docker"), Ascii("makefile")]

  /** The keyword groups in the order detectCommitType tries them. */
  const Groups: seq<(CommitType, seq<Bytes>)> :=
    [(Fix, FixKeywords), (Refactor, RefactorKeywords), (Docs, DocsKeywords),
     (Test, TestKeywords), (Perf, PerfKeywords), (CI, CiKeywords), (Build, BuildKeywords)]

  predicate AnyKeyword(content: Bytes, keywords: seq<Bytes>)
  {
    exists k :: 0 <= k < |keywords| && Contains(content, keywords[k])
  }

  /** The type of the first group one of whose keywords occurs in the content. */
  function FirstGroup(content: Bytes, groups: seq<(CommitType, seq<Bytes>)>): Option<CommitType>
  {
    if groups == [] then None
    else if AnyKeyword(content, groups[0].1) then Some(groups[0].0)
    else FirstGroup(content, groups[1..])
  }

  /** The search picks group k when k matches and no earlier group does. */
  lemma {:induction false} FirstGroupIsFirst(content: Bytes, groups: seq<(CommitType, seq<Bytes>)>, k: nat)
    requires k < |groups| && AnyKeyword(content, groups[k].1)
    requires forall j :: 0 <= j < k ==> !AnyKeyword(content, groups[j].1)
    ensures FirstGroup(content, groups) == Some(groups[k].0)
  {
    if k > 0 {
      assert !AnyKeyword(content, groups[0].1);
      assert forall j :: 0 <= j < k - 1 ==> groups[1..][j] == groups[j + 1];
      FirstGroupIsFirst(content, groups[1..], k - 1);
    }
  }

  /** The search finds nothing exactly when no group matches. */
  lemma {:induction false} FirstGroupNone(content: Bytes, groups: seq<(CommitType, seq<Bytes>)>)
    ensures FirstGroup(content, groups) == None <==>
            forall j :: 0 <= j < |groups| ==> !AnyKeyword(content, groups[j].1)
  {
    if groups != [] {
      FirstGroupNone(content, groups[1..]);
      assert forall j :: 1 <= j < |groups| ==> groups[j] == groups[1..][j - 1];
    }
  }

  /** The index of the first matching group, when there is one. */
  lemma FirstMatching(c: Bytes, groups: seq<(CommitType, seq<Bytes>)>) returns (first: nat)
    requires exists j :: 0 <= j < |groups| && AnyKeyword(c, groups[j].1)
    ensures first < |groups| && AnyKeyword(c, groups[first].1)
    ensures forall j :: 0 <= j < first ==> !AnyKeyword(c, groups[j].1)
  {
    first := 0;
    while !AnyKeyword(c, groups[first].1)
      invariant first < |groups|
      invariant forall j :: 0 <= j < first ==> !AnyKeyword(c, groups[j].1)
      invariant exists j :: first <= j < |groups| && AnyKeyword(c, groups[j].1)
      decreases |groups| - first
    {
      first := first + 1;
    }
  }

  /** The text detectCommitType searches: lower-cased title, a space, lower-cased body. */
  function Content(title: Bytes, body: Bytes): Bytes
  {
    ToLower(title) + [Space] + ToLower(body)
  }

  /** detectCommitType: the type of the first matching keyword group, `feat` when none matches. */
  function DetectCommitType(title: Bytes, body: Bytes): CommitType
  {
    match FirstGroup(Content(title, body), Groups)
    case Some(t) => t
    case None => Feat
  }

  /** The group types are pairwise distinct and none is `feat`. */
  lemma GroupTypesDistinct()
    ensures forall i, j :: 0 <= i < j < |Groups| ==> Groups[i].0 != Groups[j].0
    ensures forall i :: 0 <= i < |Groups| ==> Groups[i].0 != Feat
  {
  }

  /** The classification is the ordered search: group k's type is chosen exactly
      when one of its keywords occurs and no keyword of an earlier group does;
      `feat` exactly when no keyword occurs at all. */
  lemma DetectCommitTypeOrder(title: Bytes, body: Bytes, k: nat)
    requires k < |Groups|
    ensures DetectCommitType(title, body) == Groups[k].0 <==>
            (AnyKeyword(Content(title, body), Groups[k].1) &&
             forall j :: 0 <= j < k ==> !AnyKeyword(Content(title, body), Groups[j].1))
    ensures DetectCommitType(title, body) == Feat <==>
            forall j :: 0 <= j < |Groups| ==> !AnyKeyword(Content(title, body), Groups[j].1)
  {
    var c := Content(title, body);
    FirstGroupNone(c, Groups);
    GroupTypesDistinct();
    if exists j :: 0 <= j < |Groups| && AnyKeyword(c, Groups[j].1) {
      var first := FirstMatching(c, Groups);
      FirstGroupIsFirst(c, Groups, first);
      assert DetectCommitType(title, body) == Groups[first].0;
      if first < k {
        assert Groups[first].0 != Groups[k].0;
      } else if k < first {
        assert Groups[k].0 != Groups[first].0;
      }
    }
  }

  /** Whenever a fix keyword occurs, the type is `fix`, and only then. */
  lemma FixKeywordGivesFix(title: Bytes, body: Bytes)
    ensures DetectCommitType(title, body) == Fix <==> AnyKeyword(Content(title, body), FixKeywords)
  {
    DetectCommitTypeOrder(title, body, 0);
  }

  lemma KeywordIn(c: Bytes, keywords: seq<Bytes>, k: nat)
    requires k < |keywords| && Contains(c, keywords[k])
    ensures AnyKeyword(c, keywords)
  {
  }

  /** A keyword of group k makes the type that of group k or of an earlier group. */
  lemma EarlyGroupWins(title: Bytes, body: Bytes, k: nat)
    requires k < |Groups| && AnyKeyword(Content(title, body), Groups[k].1)
    ensures exists j :: 0 <= j <= k && DetectCommitType(title, body) == Groups[j].0
  {
    var c := Content(title, body);
    var first := FirstMatching(c, Groups);
    FirstGroupIsFirst(c, Groups, first);
    assert first <= k && DetectCommitType(title, body) == Groups[first].0;
  }

  /** The perf keyword "优化性能" can never yield `perf`: it contains the
      refactor keyword "优化", so such a text is classified `fix` or `refactor`. */
  lemma PerfPhraseShadowed(title: Bytes, body: Bytes)
    requires Contains(Content(title, body), Youhua + Xingneng)
    ensures DetectCommitType(title, body) in {Fix, Refactor}
  {
    var c := Content(title, body);
    ContainsConcat([], Youhua, Xingneng);
    assert [] + Youhua + Xingneng == Youhua + Xingneng;
    ContainsTransitive(c, Youhua + Xingneng, Youhua);
    KeywordIn(c, RefactorKeywords, 1);
    EarlyGroupWins(title, body, 1);
  }

  /** The build keyword "docker" can never yield `build`: it contains the docs keyword "doc". */
  lemma DockerShadowed(title: Bytes, body: Bytes)
    requires Contains(Content(title, body), Ascii("docker"))
    ensures DetectCommitType(title, body) in {Fix, Refactor, Docs}
  {
    var c := Content(title, body);
    assert Ascii("docker")[0..3] == Ascii("doc");
    ContainsIntro(Ascii("docker"), Ascii("doc"), 0);
    ContainsTransitive(c, Ascii("docker"), Ascii("doc"));
    KeywordIn(c, DocsKeywords, 1);
    EarlyGroupWins(title, body, 2);
  }

  /** Lower-casing comes first, so a title starting with "bug" in any mix of
      cases, e.g. "BUG: crash", means `fix`. */
  lemma UpperCaseBugIsFix(title: Bytes, body: Bytes)
    requires HasPrefix(ToLower(title), Ascii("bug"))
    ensures DetectCommitType(title, body) == Fix
  {
    var c := Content(title, body);
    assert c[0..3] == ToLower(title)[0..3];
    ContainsIntro(c, Ascii("bug"), 0);
    KeywordIn(c, FixKeywords, 4);
    FixKeywordGivesFix(title, body);
  }

  /** ASCII lowering is idempotent. */
  lemma ToLowerIdempotent(s: Bytes)
    ensures ToLower(ToLower(s)) == ToLower(s)
  {
  }

  /** The classification ignores case: texts that lower-case alike get the
      same type, and lower-casing them first changes nothing. */
  lemma DetectIgnoresCase(title: Bytes, body: Bytes, title2: Bytes, body2: Bytes)
    requires ToLower(title2) == ToLower(title) && ToLower(body2) == ToLower(body)
    ensures DetectCommitType(title2, body2) == DetectCommitType(title, body)
    ensures DetectCommitType(ToLower(title), ToLower(body)) == DetectCommitType(title, body)
  {
    assert Content(title2, body2) == Content(title, body);
    ToLowerIdempotent(title);
    ToLowerIdempotent(body);
    assert Content(ToLower(title), ToLower(body)) == Content(title, body);
  }

  // ---------------------------------------------------------------------
  // Descriptions

  const Robot: Bytes := [0xF0, 0x9F, 0xA4, 0x96]
  const Sparkles: Bytes := [0xE2, 0x9C, 0xA8]
  const BugEmoji: Bytes := [0xF0, 0x9F, 0x90, 0x9B]

  /** Drops a leading `#...` token when a space follows it (SplitN on " " into two parts). */
  function DropIssueToken(d: Bytes): (r: Bytes)
  {
    if HasPrefix(d, [35]) then
      var i := IndexByte(d, Space);
      if i >= 0 then d[i + 1..] else d
    else d
  }

  /** The title with white space trimmed, the issue token dropped and the
      three emoji removed, trimming again after each removal. */
  function CleanDescription(title: Bytes): (r: Bytes)
    ensures Trimmed(r)
  {
    StripEmoji(DropIssueToken(TrimSpace(title)))
  }

  /** The three emoji removals, each followed by trimming. */
  function StripEmoji(d0: Bytes): (r: Bytes)
    ensures Trimmed(r)
  {
    var d1 := TrimSpace(RemoveAll(d0, Robot));
    var d2 := TrimSpace(RemoveAll(d1, Sparkles));
    TrimSpace(RemoveAll(d2, BugEmoji))
  }

  const Ellipsis: Bytes := [Dot, Dot, Dot]

  /** buildDescription: the cleaned title, cut to 47 bytes plus "..." when it
      is longer than 50 bytes. */
  function BuildDescription(title: Bytes): (r: Bytes)
    ensures |r| <= 50
    ensures |CleanDescription(title)| <= 50 ==> r == CleanDescription(title)
    ensures |CleanDescription(title)| > 50 ==>
              |r| == 50 && HasPrefix(CleanDescription(title), r[..47]) && HasSuffix(r, Ellipsis)
  {
    var d := CleanDescription(title);
    if |d| > 50 then d[..47] + Ellipsis else d
  }

  lemma NoEmojiByte(s: Bytes, e: Bytes)
    requires e != [] && e[0] >= 0x80
    requires forall k :: 0 <= k < |s| ==> s[k] < 0x80
    ensures !Contains(s, e)
  {
    forall i | 0 <= i <= |s| && i + |e| <= |s|
      ensures !MatchesAt(s, e, i)
    {
      assert s[i..i + |e|][0] == s[i];
    }
  }

  /** The issue-number token is dropped: for an ASCII title `#tok rest`, whose
      token holds no space and whose rest is already trimmed, the description
      is exactly `rest`. */
  lemma DescriptionDropsIssueToken(tok: Bytes, rest: Bytes)
    requires Space !in tok && Trimmed(rest) && rest != []
    requires forall k :: 0 <= k < |rest| ==> rest[k] < 0x80
    ensures CleanDescription([35] + tok + [Space] + rest) == rest
  {
    TrimThenDrop(tok, rest);
    StripEmojiAscii(rest);
  }

  /** The title `#tok rest` is already trimmed, and dropping its token leaves `rest`. */
  lemma TrimThenDrop(tok: Bytes, rest: Bytes)
    requires Space !in tok && Trimmed(rest) && rest != []
    ensures DropIssueToken(TrimSpace([35] + tok + [Space] + rest)) == rest
  {
    var t := [35] + tok + [Space] + rest;
    assert t[0] == 35 && t[|t| - 1] == rest[|rest| - 1];
    TrimmedFixpoint(t);
    DropTokenOf(tok, rest);
  }

  /** Trimmed ASCII text has no emoji to strip. */
  lemma StripEmojiAscii(s: Bytes)
    requires Trimmed(s)
    requires forall k :: 0 <= k < |s| ==> s[k] < 0x80
    ensures StripEmoji(s) == s
  {
    RemovalKeeps(s, Robot);
    var d1 := TrimSpace(RemoveAll(s, Robot));
    assert d1 == s;
    RemovalKeeps(d1, Sparkles);
    var d2 := TrimSpace(RemoveAll(d1, Sparkles));
    assert d2 == s;
    RemovalKeeps(d2, BugEmoji);
  }

  /** A leading `#tok ` is dropped. */
  lemma DropTokenOf(tok: Bytes, rest: Bytes)
    requires Space !in tok
    ensures DropIssueToken([35] + tok + [Space] + rest) == rest
  {
    var t := [35] + tok + [Space] + rest;
    assert t[..1] == [35];
    assert t[1 + |tok|] == Space;
    assert t[..1 + |tok|] == [35] + tok;
    IndexByteAt(t, Space, 1 + |tok|);
    assert t[2 + |tok|..] == rest;
  }

  /** Removing an emoji from trimmed ASCII text and trimming again changes nothing. */
  lemma RemovalKeeps(s: Bytes, e: Bytes)
    requires Trimmed(s) && e in [Robot, Sparkles, BugEmoji]
    requires forall k :: 0 <= k < |s| ==> s[k] < 0x80
    ensures TrimSpace(RemoveAll(s, e)) == s
  {
    assert e != [] && e[0] >= 0x80;
    NoEmojiByte(s, e);
    RemoveAllAbsent(s, e);
    TrimmedFixpoint(s);
  }

  // ---------------------------------------------------------------------
  // Serialisation

  function ScopePart(scope: Bytes): Bytes
  {
    if scope == [] then [] else [OpenParen] + scope + [CloseParen]
  }

  function Section(text: Bytes): Bytes
  {
    if text == [] then [] else [Newline, Newline] + text
  }

  /** The first line: type, `(scope)` iff a scope is set, `!` iff breaking, `: `, description. */
  function Header(c: CommitMessage): Bytes
  {
    c.kind + ScopePart(c.scope) + (if c.isBreaking then [Bang] else []) + [Colon, Space] + c.description
  }

  /** The whole message: header, then body and footer each after a blank line iff non-empty. */
  function Render(c: CommitMessage): Bytes
  {
    Header(c) + Section(c.body) + Section(c.footer)
  }

  /** format, writing the parts one after another as the strings.Builder does. */
  method Format(c: CommitMessage) returns (r: Bytes)
    ensures r == Render(c)
  {
    r := c.kind;
    if c.scope != [] {
      r := r + [OpenParen];
      r := r + c.scope;
      r := r + [CloseParen];
    }
    assert r == c.kind + ScopePart(c.scope);
    if c.isBreaking {
      r := r + [Bang];
    }
    r := r + [Colon, Space];
    r := r + c.description;
    assert r == Header(c);
    if c.body != [] {
      r := r + [Newline, Newline];
      r := r + c.body;
    }
    assert r == Header(c) + Section(c.body);
    if c.footer != [] {
      r := r + [Newline, Newline];
      r := r + c.footer;
    }
  }

  /** The text up to the first newline. */
  function FirstLine(s: Bytes): (r: Bytes)
    ensures HasPrefix(s, r) && Newline !in r
  {
    var i := IndexByte(s, Newline);
    if i < 0 then s else s[..i]
  }

  /** The parts a header line is read back into. */
  datatype ParsedHeader = ParsedHeader(kind: Bytes, scope: Bytes, isBreaking: bool, description: Bytes)

  /** Reading a header back: the type and `(scope)` and `!` before the first
      `: `, the description after it. */
  function ParseHeader(line: Bytes): Option<ParsedHeader>
  {
    var k := Index(line, [Colon, Space]);
    if k < 0 then None else ParseHead(line[..k], line[k + 2..])
  }

  /** The part before ": ": a keyword, an optional `(scope)`, an optional `!`. */
  function ParseHead(head: Bytes, description: Bytes): Option<ParsedHeader>
  {
    var breaking := HasSuffix(head, [Bang]);
    ParseKeyword(if breaking then head[..|head| - 1] else head, breaking, description)
  }

  /** The part before the optional `!`: a keyword and an optional `(scope)`. */
  function ParseKeyword(h: Bytes, breaking: bool, description: Bytes): Option<ParsedHeader>
  {
    var p := IndexByte(h, OpenParen);
    if p < 0 then Some(ParsedHeader(h, [], breaking, description))
    else if HasSuffix(h, [CloseParen]) && p < |h| - 1 then
      Some(ParsedHeader(h[..p], h[p + 1..|h| - 1], breaking, description))
    else None
  }

  /** The first ": " of a line whose prefix holds no ':' ends the prefix. */
  lemma ColonSpaceIndex(prefix: Bytes, rest: Bytes)
    requires Colon !in prefix
    ensures Index(prefix + [Colon, Space] + rest, [Colon, Space]) == |prefix|
  {
    var line := prefix + [Colon, Space] + rest;
    assert line[|prefix|..|prefix| + 2] == [Colon, Space];
    ContainsIntro(line, [Colon, Space], |prefix|);
    forall i | 0 <= i < |prefix|
      ensures !MatchesAt(line, [Colon, Space], i)
    {
      assert line[i] == prefix[i];
      if i + 2 <= |line| {
        assert line[i..i + 2][0] == line[i];
      }
    }
    assert Contains(line, [Colon, Space]);
    var k := Index(line, [Colon, Space]);
    assert k >= 0;
    assert MatchesAt(line, [Colon, Space], k);
    assert !(k > |prefix|);
    assert !(k < |prefix|);
  }

  /** A trailing `!` is recognised exactly when it was written. */
  lemma BangSuffix(h: Bytes, breaking: bool)
    requires !HasSuffix(h, [Bang])
    ensures var prefix := h + (if breaking then [Bang] else []);
            HasSuffix(prefix, [Bang]) == breaking &&
            (if breaking then prefix[..|prefix| - 1] else prefix) == h
  {
    var prefix := h + (if breaking then [Bang] else []);
    if breaking {
      assert prefix[..|prefix| - 1] == h;
    } else {
      assert prefix == h;
    }
  }

  /** The part of a header before ": " reads back into keyword, scope and `!`. */
  lemma ParseBuiltHead(name: Bytes, scope: Bytes, breaking: bool, description: Bytes)
    requires OpenParen !in name && !HasSuffix(name, [Bang])
    ensures ParseHead(name + ScopePart(scope) + (if breaking then [Bang] else []), description) ==
            Some(ParsedHeader(name, scope, breaking, description))
  {
    var h := name + ScopePart(scope);
    assert !HasSuffix(h, [Bang]) by {
      if scope == [] {
        assert h == name;
      } else {
        assert h[|h| - 1] == CloseParen;
        assert h[|h| - 1..] == [CloseParen];
      }
    }
    BangSuffix(h, breaking);
    ParseBuiltKeyword(name, scope, breaking, description);
  }

  /** A keyword and its optional `(scope)` read back. */
  lemma ParseBuiltKeyword(name: Bytes, scope: Bytes, breaking: bool, description: Bytes)
    requires OpenParen !in name
    ensures ParseKeyword(name + ScopePart(scope), breaking, description) ==
            Some(ParsedHeader(name, scope, breaking, description))
  {
    var h := name + ScopePart(scope);
    if scope == [] {
      assert h == name;
      assert OpenParen !in h;
    } else {
      assert h == name + [OpenParen] + scope + [CloseParen];
      assert h[|h| - 1] == CloseParen;
      assert h[|name|] == OpenParen;
      assert h[..|name|] == name;
      assert h[|name| + 1..|h| - 1] == scope;
      assert h[..|name|] == name && OpenParen !in name;
      IndexByteAt(h, OpenParen, |name|);
    }
  }

  /** Reading back a header built from a plain type. */
  lemma ParseBuiltHeader(name: Bytes, scope: Bytes, breaking: bool, description: Bytes)
    requires PlainType(name)
    requires Colon !in scope
    ensures ParseHeader(name + ScopePart(scope) + (if breaking then [Bang] else []) + [Colon, Space] + description) ==
            Some(ParsedHeader(name, scope, breaking, description))
  {
    var prefix := name + ScopePart(scope) + (if breaking then [Bang] else []);
    var line := prefix + [Colon, Space] + description;
    assert Colon !in prefix;
    ColonSpaceIndex(prefix, description);
    assert line[..|prefix|] == prefix;
    assert line[|prefix| + 2..] == description;
    ParseBuiltHead(name, scope, breaking, description);
  }

  /** Round trip of the first line: a header reads back into the type, the
      scope, the breaking flag and the description, whenever the type is
      plain and the scope holds no ':'. */
  lemma HeaderRoundTrip(c: CommitMessage)
    requires PlainType(c.kind) && Colon !in c.scope
    ensures ParseHeader(Header(c)) ==
            Some(ParsedHeader(c.kind, c.scope, c.isBreaking, c.description))
  {
    ParseBuiltHeader(c.kind, c.scope, c.isBreaking, c.description);
  }

  /** Why a plain type may not end in '!': without a scope, a type `k!` of a
      non-breaking message writes the same first line as the breaking type `k`,
      and reads back as that. */
  lemma BangTypeReadsBreaking(k: Bytes, description: Bytes, body: Bytes, footer: Bytes)
    requires PlainType(k)
    ensures var c := CommitMessage(k + [Bang], [], description, body, footer, false);
      Header(c) == Header(c.(kind := k, isBreaking := true)) &&
      ParseHeader(Header(c)) == Some(ParsedHeader(k, [], true, description))
  {
    ParseBuiltHeader(k, [], true, description);
  }

  /** The first line of a rendered message is its header when neither the
      scope nor the description holds a newline. */
  lemma FirstLineIsHeader(c: CommitMessage)
    requires Newline !in c.kind && Newline !in c.scope && Newline !in c.description
    ensures FirstLine(Render(c)) == Header(c)
  {
    var hd := Header(c);
    var s := Render(c);
    assert Newline !in hd;
    assert s[..|hd|] == hd;
    if c.body != [] || c.footer != [] {
      assert s[|hd|] == Newline;
      assert IndexByte(s, Newline) == |hd|;
    } else {
      assert s == hd;
    }
  }

  /** The header is the start of the rendered message and the footer, when
      set, its end. */
  lemma RenderShape(c: CommitMessage)
    ensures HasPrefix(Render(c), Header(c))
    ensures c.body != [] ==> Contains(Render(c), [Newline, Newline] + c.body)
  {
    var s := Render(c);
    assert s[..|Header(c)|] == Header(c);
    if c.body != [] {
      ContainsConcat(Header(c), Section(c.body), Section(c.footer));
    }
  }

  /** A footer, when set, ends the message after a blank line. */
  lemma FooterLast(c: CommitMessage)
    requires c.footer != []
    ensures HasSuffix(Render(c), [Newline, Newline] + c.footer)
  {
  }

  /** Without scope and `!`, the message starts with the keyword and ": ". */
  lemma UnscopedPrefix(c: CommitMessage)
    requires c.scope == [] && !c.isBreaking
    ensures HasPrefix(Render(c), c.kind + [Colon, Space])
  {
    var p := c.kind + [Colon, Space];
    assert Render(c) == p + c.description + Section(c.body) + Section(c.footer);
    assert Render(c)[..|p|] == p;
  }

  // ---------------------------------------------------------------------
  // The three builders

  /** BuildManualCommit: the given parts, never breaking; the first line reads
      back into them when the type is plain, scope and description are
      single-line and the scope holds no ':'. */
  method BuildManualCommit(kind: Bytes, scope: Bytes, description: Bytes, body: Bytes, footer: Bytes)
    returns (r: Bytes)
    ensures r == Render(CommitMessage(kind, scope, description, body, footer, false))
    ensures PlainType(kind) && Newline !in scope && Newline !in description && Colon !in scope ==>
              ParseHeader(FirstLine(r)) == Some(ParsedHeader(kind, scope, false, description))
  {
    var c := CommitMessage(kind, scope, description, body, footer, false);
    r := Format(c);
    if PlainType(kind) && Newline !in scope && Newline !in description && Colon !in scope {
      FirstLineIsHeader(c);
      HeaderRoundTrip(c);
    }
  }

  // UTF-8 bytes of the fixed texts of the auto-fix body and footer.
  const GeneratedNote: Bytes := [0xE7, 0x94, 0xB1, 0x41, 0x49, 0xE5, 0x8A, 0xA9, 0xE6, 0x89, 0x8B, 0xE8, 0x87, 0xAA, 0xE5, 0x8A, 0xA8, 0xE7, 0x94, 0x9F, 0xE6, 0x88, 0x90, 0xE7, 0x9A, 0x84, 0xE4, 0xBB, 0xA3, 0xE7, 0xA0, 0x81, 0xE4, 0xBF, 0xAE, 0xE6, 0x94, 0xB9]  // 由AI助手自动生成的代码修改
  const ModifiedFilesLabel: Bytes := [0xE4, 0xBF, 0xAE, 0xE6, 0x94, 0xB9, 0xE6, 0x96, 0x87, 0xE4, 0xBB, 0xB6, 0x3A]  // 修改文件:
  const IssueLinkLabel: Bytes := [0x49, 0x73, 0x73, 0x75, 0x65, 0xE9, 0x93, 0xBE, 0xE6, 0x8E, 0xA5, 0x3A]  // Issue链接:

  const AutoFixBodyIntro: Bytes := GeneratedNote + [Newline, Newline] + ModifiedFilesLabel + [Newline]

  /** The auto-fix body: the generated-by note, then the modified files one per line. */
  function AutoFixBody(files: seq<Bytes>): Bytes
  {
    AutoFixBodyIntro + Join(files, Newline)
  }

  /** The auto-fix footer: `Closes #<number>`, then the issue link. */
  function AutoFixFooter(issue: Issue): Bytes
  {
    Ascii("Closes #") + Decimal(issue.number) + [Newline] + IssueLinkLabel + [Space] + issue.url
  }

  /** The auto-fix footer starts with `Closes #<issue number>`. */
  lemma AutoFixFooterCloses(issue: Issue)
    ensures HasPrefix(AutoFixFooter(issue), Ascii("Closes #") + Decimal(issue.number))
  {
    var p := Ascii("Closes #") + Decimal(issue.number);
    assert AutoFixFooter(issue) == p + ([Newline] + IssueLinkLabel + [Space] + issue.url);
    assert AutoFixFooter(issue)[..|p|] == p;
  }

  /** A message whose body is the auto-fix body names every modified file. */
  lemma AutoFixBodyListsFiles(c: CommitMessage, files: seq<Bytes>)
    requires c.body == AutoFixBody(files)
    ensures forall k :: 0 <= k < |files| ==> Contains(Render(c), files[k])
  {
    var j := Join(files, Newline);
    JoinContainsAll(files, Newline);
    ContainsConcat(AutoFixBodyIntro, j, []);
    assert AutoFixBodyIntro + j + [] == c.body;
    ContainsEach(c.body, j, files);
    RenderContainsBody(c);
    ContainsEach(Render(c), c.body, files);
  }

  /** A non-empty body is part of the message. */
  lemma RenderContainsBody(c: CommitMessage)
    requires c.body != []
    ensures Contains(Render(c), c.body)
  {
    var h := Header(c) + [Newline, Newline];
    assert Render(c) == h + c.body + Section(c.footer);
    ContainsConcat(h, c.body, Section(c.footer));
  }

  /** BuildAutoFixCommit: type from the issue's title and body, a preferred
      scope of the modified files, the cleaned title, a body listing every
      file and a `Closes #n` footer. */
  method BuildAutoFixCommit(issue: Issue, modifiedFiles: seq<Bytes>) returns (r: Bytes)
    ensures exists scope :: IsPreferredScope(modifiedFiles, scope) &&
              r == Render(CommitMessage(DetectCommitType(issue.title, issue.body).Name(), scope,
                                        BuildDescription(issue.title), AutoFixBody(modifiedFiles),
                                        AutoFixFooter(issue), false))
    ensures HasSuffix(r, [Newline, Newline] + AutoFixFooter(issue))
    ensures forall k :: 0 <= k < |modifiedFiles| ==> Contains(r, modifiedFiles[k])
  {
    var scope := DetectScope(modifiedFiles);
    var kind := DetectCommitType(issue.title, issue.body);
    var description := BuildDescription(issue.title);
    var c := CommitMessage(kind.Name(), scope, description, AutoFixBody(modifiedFiles), AutoFixFooter(issue), false);
    r := Format(c);
    assert IsPreferredScope(modifiedFiles, scope) && r == Render(c);
    FooterLast(c);
    AutoFixBodyListsFiles(c, modifiedFiles);
  }

  function PRFooter(prNumber: int): Bytes
  {
    Ascii("PR #") + Decimal(prNumber)
  }

  /** BuildPRCommit: type from the PR's title and description, no scope, the
      cleaned title and a `PR #n` footer. */
  method BuildPRCommit(prTitle: Bytes, prDescription: Bytes, prNumber: int) returns (r: Bytes)
    ensures r == Render(CommitMessage(DetectCommitType(prTitle, prDescription).Name(), [],
                                      BuildDescription(prTitle), [], PRFooter(prNumber), false))
    ensures HasPrefix(r, DetectCommitType(prTitle, prDescription).Name() + [Colon, Space])
    ensures HasSuffix(r, [Newline, Newline] + PRFooter(prNumber))
  {
    var kind := DetectCommitType(prTitle, prDescription);
    var c := CommitMessage(kind.Name(), [], BuildDescription(prTitle), [], PRFooter(prNumber), false);
    r := Format(c);
    UnscopedPrefix(c);
    FooterLast(c);
  }
}

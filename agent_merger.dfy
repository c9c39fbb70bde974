/**
 * `AgentMerger`: given the static analyses of two agents' code, it finds the names both
 * define, plans the merge, prefixes one agent's class and function definitions, writes the
 * imports section and the summary.  The analyses themselves come from Python's `ast`
 * walker and are inputs here.
 */
module AgentMerger {
  import opened Wrappers
  import opened Strs

  // ------------------------------------------------------------ analyses

  datatype ClassInfo = ClassInfo(name: string, methods: seq<string>, bases: seq<string>)
  datatype FunctionInfo = FunctionInfo(name: string, args: seq<string>, decorators: seq<string>)

  /** The dict `analyze_agent_flow` returns: the collected lists, or `{'error': ...}`. */
  datatype Analysis =
    | Analysis(imports: seq<string>, classes: seq<ClassInfo>, functions: seq<FunctionInfo>, variables: seq<string>)
    | AnalysisError(message: string)

  /** `analysis.get('imports', [])` and its siblings: an error dict has none of the lists. */
  function Imports(a: Analysis): seq<string> {
    if a.Analysis? then a.imports else []
  }

  function Classes(a: Analysis): seq<ClassInfo> {
    if a.Analysis? then a.classes else []
  }

  function Functions(a: Analysis): seq<FunctionInfo> {
    if a.Analysis? then a.functions else []
  }

  function Variables(a: Analysis): seq<string> {
    if a.Analysis? then a.variables else []
  }

  // ----------------------------------------------------------- conflicts

  datatype Kind = ClassKind | FunctionKind | VariableKind

  /** The `type` string of a conflict entry. */
  function TypeName(k: Kind): string {
    match k
    case ClassKind => "class_name_conflict"
    case FunctionKind => "function_name_conflict"
    case VariableKind => "variable_name_conflict"
  }

  datatype Sev = High | Medium | Low

  function Severity(k: Kind): Sev {
    match k
    case ClassKind => High
    case FunctionKind => Medium
    case VariableKind => Low
  }

  /** The `severity` string of a conflict entry. */
  function SeverityName(s: Sev): string {
    match s
    case High => "high"
    case Medium => "medium"
    case Low => "low"
  }

  function Description(k: Kind): string {
    match k
    case ClassKind => "存在同名的类定义"
    case FunctionKind => "存在同名的函数定义"
    case VariableKind => "存在同名的变量定义"
  }

  /** A conflict entry; the `conflicts` list is `list(set)`, whose order Python leaves open. */
  datatype Conflict = Conflict(kind: Kind, names: set<string>)

  /** `{cls['name'] for cls in classes}`. */
  function ClassNames(cs: seq<ClassInfo>): set<string> {
    if cs == [] then {} else ClassNames(cs[..|cs| - 1]) + {cs[|cs| - 1].name}
  }

  /** `{func['name'] for func in functions}`. */
  function FunctionNames(fs: seq<FunctionInfo>): set<string> {
    if fs == [] then {} else FunctionNames(fs[..|fs| - 1]) + {fs[|fs| - 1].name}
  }

  /** `set(variables)`. */
  function NameSet(vs: seq<string>): set<string> {
    if vs == [] then {} else NameSet(vs[..|vs| - 1]) + {vs[|vs| - 1]}
  }

  /** The names an analysis defines of one kind. */
  function Names(a: Analysis, k: Kind): set<string> {
    match k
    case ClassKind => ClassNames(Classes(a))
    case FunctionKind => FunctionNames(Functions(a))
    case VariableKind => NameSet(Variables(a))
  }

  /** The names of one kind both analyses define. */
  function Shared(a1: Analysis, a2: Analysis, k: Kind): set<string> {
    Names(a1, k) * Names(a2, k)
  }

  function Rank(k: Kind): nat {
    match k
    case ClassKind => 0
    case FunctionKind => 1
    case VariableKind => 2
  }

  function ConflictIf(a1: Analysis, a2: Analysis, k: Kind): seq<Conflict> {
    ConflictOf(k, Shared(a1, a2, k))
  }

  function ConflictOf(k: Kind, names: set<string>): seq<Conflict> {
    if names != {} then [Conflict(k, names)] else []
  }

  /** `detect_conflicts`. */
  function DetectConflicts(a1: Analysis, a2: Analysis): (cs: seq<Conflict>)
    ensures |cs| <= 3
    ensures forall i :: 0 <= i < |cs| ==> cs[i].names == Shared(a1, a2, cs[i].kind) && cs[i].names != {}
  {
    ConflictIf(a1, a2, ClassKind) + ConflictIf(a1, a2, FunctionKind) + ConflictIf(a1, a2, VariableKind)
  }

  /**
   * The entries come in the order class, function, variable, and there is one of a kind
   * exactly when the two analyses share names of that kind.
   */
  lemma DetectConflictsOrder(a1: Analysis, a2: Analysis)
    ensures var cs := DetectConflicts(a1, a2);
      (forall i, j :: 0 <= i < j < |cs| ==> Rank(cs[i].kind) < Rank(cs[j].kind))
      && forall k :: (exists i :: 0 <= i < |cs| && cs[i].kind == k) <==> Shared(a1, a2, k) != {}
  {
    var sc, sf, sv := Shared(a1, a2, ClassKind), Shared(a1, a2, FunctionKind), Shared(a1, a2, VariableKind);
    assert DetectConflicts(a1, a2) == ConflictOf(ClassKind, sc) + ConflictOf(FunctionKind, sf) + ConflictOf(VariableKind, sv);
    ConflictsOfOrder(sc, sf, sv);
    forall k ensures Shared(a1, a2, k) == PickNames(k, sc, sf, sv) {
      match k
      case ClassKind =>
      case FunctionKind =>
      case VariableKind =>
    }
  }

  function PickNames(k: Kind, sc: set<string>, sf: set<string>, sv: set<string>): set<string> {
    match k
    case ClassKind => sc
    case FunctionKind => sf
    case VariableKind => sv
  }

  lemma ConflictsOfOrder(sc: set<string>, sf: set<string>, sv: set<string>)
    ensures var cs := ConflictOf(ClassKind, sc) + ConflictOf(FunctionKind, sf) + ConflictOf(VariableKind, sv);
      (forall i, j :: 0 <= i < j < |cs| ==> Rank(cs[i].kind) < Rank(cs[j].kind))
      && forall k :: (exists i :: 0 <= i < |cs| && cs[i].kind == k) <==> PickNames(k, sc, sf, sv) != {}
  {
    var c, f, v := ConflictOf(ClassKind, sc), ConflictOf(FunctionKind, sf), ConflictOf(VariableKind, sv);
    var cs := c + f + v;
    forall i | 0 <= i < |cs|
      ensures cs[i].kind == KindAt(|c|, |f|, i)
    {
      if i < |c| {
        assert cs[i] == c[i];
      } else if i < |c| + |f| {
        assert cs[i] == f[i - |c|];
      } else {
        assert cs[i] == v[i - |c| - |f|];
      }
    }
    forall k
      ensures (exists i :: 0 <= i < |cs| && cs[i].kind == k) <==> PickNames(k, sc, sf, sv) != {}
    {
      if PickNames(k, sc, sf, sv) != {} {
        var i := match k case ClassKind => 0 case FunctionKind => |c| case VariableKind => |c| + |f|;
        assert cs[i].kind == KindAt(|c|, |f|, i) == k;
      }
    }
  }

  /** The kind at position `i` of a list made of `nc` class, `nf` function and then variable entries. */
  function KindAt(nc: nat, nf: nat, i: nat): Kind {
    if i < nc then ClassKind else if i < nc + nf then FunctionKind else VariableKind
  }

  /** Intersections do not care which agent comes first. */
  lemma DetectConflictsSymmetric(a1: Analysis, a2: Analysis)
    ensures DetectConflicts(a1, a2) == DetectConflicts(a2, a1)
  {
    forall k ensures Shared(a1, a2, k) == Shared(a2, a1, k) {
      assert Names(a1, k) * Names(a2, k) == Names(a2, k) * Names(a1, k);
    }
  }

  /** The number of conflict entries of a severity. */
  function CountSeverity(cs: seq<Conflict>, severity: Sev): nat {
    if cs == [] then 0
    else CountSeverity(cs[..|cs| - 1], severity) + (if Severity(cs[|cs| - 1].kind) == severity then 1 else 0)
  }

  /** Every conflict has exactly one of the three severities. */
  lemma {:induction false} SeveritiesCover(cs: seq<Conflict>)
    ensures CountSeverity(cs, High) + CountSeverity(cs, Medium) + CountSeverity(cs, Low) == |cs|
  {
    if cs != [] {
      SeveritiesCover(cs[..|cs| - 1]);
    }
  }

  /** A detected list has one entry of a severity exactly when that kind of name is shared. */
  lemma DetectedSeverities(a1: Analysis, a2: Analysis)
    ensures var cs := DetectConflicts(a1, a2);
      CountSeverity(cs, High) == (if Shared(a1, a2, ClassKind) != {} then 1 else 0)
      && CountSeverity(cs, Medium) == (if Shared(a1, a2, FunctionKind) != {} then 1 else 0)
      && CountSeverity(cs, Low) == (if Shared(a1, a2, VariableKind) != {} then 1 else 0)
  {
    var c, f, v := ConflictIf(a1, a2, ClassKind), ConflictIf(a1, a2, FunctionKind), ConflictIf(a1, a2, VariableKind);
    CountSeverityAppend(c + f, v);
    CountSeverityAppend(c, f);
    CountOne(c);
    CountOne(f);
    CountOne(v);
  }

  lemma CountOne(cs: seq<Conflict>)
    requires |cs| <= 1
    ensures forall s :: CountSeverity(cs, s) == if cs != [] && Severity(cs[0].kind) == s then 1 else 0
  {
    if cs != [] {
      assert cs[..0] == [];
    }
  }

  lemma {:induction false} CountSeverityAppend(a: seq<Conflict>, b: seq<Conflict>)
    ensures forall s :: CountSeverity(a + b, s) == CountSeverity(a, s) + CountSeverity(b, s)
    decreases |b|
  {
    if b == [] {
      assert a + b == a;
    } else {
      assert (a + b)[..|a + b| - 1] == a + b[..|b| - 1];
      CountSeverityAppend(a, b[..|b| - 1]);
    }
  }

  // ---------------------------------------------------------- merge plan

  datatype Resolution = Resolution(conflict: Conflict, resolution: string, action: string)

  /** The plan's `strategy`, `resolutions` and `new_structure` lists (whose `workflow` stays empty). */
  datatype MergePlan = MergePlan(
    strategy: string, resolutions: seq<Resolution>, imports: set<string>,
    classes: seq<ClassInfo>, functions: seq<FunctionInfo>)

  /** The `action` text of a class or function resolution for the name `n`. */
  function RenameAction(k: Kind, n: string): string {
    if k == ClassKind then "将冲突的类重命名为 " + n + "_Agent1 和 " + n + "_Agent2"
    else "将冲突的函数重命名为 " + n + "_agent1 和 " + n + "_agent2"
  }

  /**
   * The resolution for one conflict; `first` picks `conflicts[0]` of the `list(set)`.
   * Variable conflicts get none.
   */
  function ResolutionOf(c: Conflict, first: set<string> -> string): Option<Resolution> {
    match c.kind
    case ClassKind => Some(Resolution(c, "rename_classes", RenameAction(ClassKind, first(c.names))))
    case FunctionKind => Some(Resolution(c, "rename_functions", RenameAction(FunctionKind, first(c.names))))
    case VariableKind => None
  }

  function Resolutions(cs: seq<Conflict>, first: set<string> -> string): seq<Resolution> {
    if cs == [] then []
    else
      var r := ResolutionOf(cs[|cs| - 1], first);
      Resolutions(cs[..|cs| - 1], first) + (if r.Some? then [r.value] else [])
  }

  /** One resolution per class or function conflict, none for a variable conflict. */
  lemma {:induction false} ResolutionsCount(cs: seq<Conflict>, first: set<string> -> string)
    ensures |Resolutions(cs, first)| + CountSeverity(cs, Low) == |cs|
  {
    if cs != [] {
      ResolutionsCount(cs[..|cs| - 1], first);
    }
  }

  /** Each resolution answers a class or function conflict of the list. */
  lemma {:induction false} ResolutionsFor(cs: seq<Conflict>, first: set<string> -> string)
    ensures forall r :: r in Resolutions(cs, first) ==> r.conflict in cs && r.conflict.kind != VariableKind
  {
    if cs != [] {
      ResolutionsFor(cs[..|cs| - 1], first);
      assert forall c :: c in cs[..|cs| - 1] ==> c in cs;
    }
  }

  /**
   * When `first` picks a member of a non-empty set, as `list(s)[0]` does, and every conflict
   * names something, as detected conflicts do, each resolution's action renames a name of its
   * own conflict.
   */
  lemma {:induction false} ResolutionsName(cs: seq<Conflict>, first: set<string> -> string)
    requires forall s: set<string> :: s != {} ==> first(s) in s
    requires forall i :: 0 <= i < |cs| ==> cs[i].names != {}
    ensures forall r :: r in Resolutions(cs, first) ==>
      first(r.conflict.names) in r.conflict.names && r.action == RenameAction(r.conflict.kind, first(r.conflict.names))
  {
    if cs != [] {
      ResolutionsName(cs[..|cs| - 1], first);
      assert cs[|cs| - 1].names != {};
    }
  }

  /** `generate_merge_plan`. */
  method GenerateMergePlan(a1: Analysis, a2: Analysis, conflicts: seq<Conflict>, strategy: string, first: set<string> -> string)
    returns (plan: MergePlan)
    ensures plan.strategy == strategy && plan.resolutions == Resolutions(conflicts, first)
    ensures forall x :: x in plan.imports <==> x in Imports(a1) || x in Imports(a2)
    ensures plan.classes == Classes(a1) + Classes(a2) && plan.functions == Functions(a1) + Functions(a2)
  {
    var resolutions: seq<Resolution> := [];
    for i := 0 to |conflicts|
      invariant resolutions == Resolutions(conflicts[..i], first)
    {
      var conflict := conflicts[i];
      assert conflicts[..i + 1][..i] == conflicts[..i];
      if conflict.kind == ClassKind {
        var n := first(conflict.names);
        resolutions := resolutions + [Resolution(conflict, "rename_classes", "将冲突的类重命名为 " + n + "_Agent1 和 " + n + "_Agent2")];
      } else if conflict.kind == FunctionKind {
        var n := first(conflict.names);
        resolutions := resolutions + [Resolution(conflict, "rename_functions", "将冲突的函数重命名为 " + n + "_agent1 和 " + n + "_agent2")];
      }
    }
    assert conflicts[..|conflicts|] == conflicts;
    var imports := set x | x in Imports(a1) + Imports(a2);
    plan := MergePlan(strategy, resolutions, imports, Classes(a1) + Classes(a2), Functions(a1) + Functions(a2));
  }

  // ----------------------------------------------------- namespace prefix

  const ClassWord := "class "
  const DefWord := "def "

  /** `line.strip().startswith('class ')`. */
  predicate IsClassLine(line: string) {
    StartsWith(Strip(line), ClassWord)
  }

  /** `line.strip().startswith('def ') and not line.strip().startswith('def __')`. */
  predicate IsDefLine(line: string) {
    StartsWith(Strip(line), DefWord) && !StartsWith(Strip(line), "def __")
  }

  /** A line whose stripped form starts with a keyword and a space has a second word. */
  lemma KeywordLineWords(line: string, kw: string)
    requires |kw| >= 2 && !IsSpace(kw[0]) && IsSpace(kw[|kw| - 1]) && StartsWith(Strip(line), kw)
    ensures |Words(line)| >= 2
  {
    StripSlice(line);
    var a, b :| 0 <= a <= b <= |line| && Strip(line) == line[a..b] && AllSpace(line[..a]) && AllSpace(line[b..]);
    SecondWord(line, a, b, kw);
  }

  lemma SecondWord(line: string, a: nat, b: nat, kw: string)
    requires a <= b <= |line| && IsStripped(line[a..b]) && StartsWith(line[a..b], kw)
    requires |kw| >= 2 && !IsSpace(kw[0]) && IsSpace(kw[|kw| - 1])
    ensures |Words(line)| >= 2
  {
    var t := line[a..b];
    var n := |kw| - 1;
    assert t[0] == kw[0] by { assert t[..|kw|][0] == t[0]; }
    assert t[n] == kw[n] by { assert t[..|kw|][n] == t[n]; }
    assert line[a] == t[0] && line[a + n] == t[n] && line[a + |t| - 1] == t[|t| - 1];
    TwoWords(line, a, a + n, a + |t| - 1);
  }

  /** `line.split()[1].split('(')[0]`: the declared name. */
  function DeclaredName(line: string): (n: string)
    requires |Words(line)| >= 2
    ensures '\n' !in n
  {
    var w := Words(line)[1];
    SplitFirstPrefix(w, '(');
    assert IsSpace('\n');
    Split(w, '(')[0]
  }

  /** Every `<kw><name>` in the line becomes `<kw><prefix>_<name>`. */
  function Renamed(line: string, kw: string, name: string, prefix: string): string
    requires kw != []
  {
    Replace(line, kw + name, kw + prefix + "_" + name)
  }

  /** The line `add_namespace_prefix` writes for one input line. */
  function PrefixLine(line: string, prefix: string): string {
    if IsClassLine(line) then
      KeywordLineWords(line, ClassWord);
      var n := DeclaredName(line);
      Renamed(line, ClassWord, n, prefix)
    else if IsDefLine(line) then
      KeywordLineWords(line, DefWord);
      var n := DeclaredName(line);
      Renamed(line, DefWord, n, prefix)
    else line
  }

  function PrefixLines(lines: seq<string>, prefix: string): (ps: seq<string>)
    ensures |ps| == |lines|
  {
    if lines == [] then [] else PrefixLines(lines[..|lines| - 1], prefix) + [PrefixLine(lines[|lines| - 1], prefix)]
  }

  lemma {:induction false} PrefixLineAt(lines: seq<string>, prefix: string, i: nat)
    requires i < |lines|
    ensures PrefixLines(lines, prefix)[i] == PrefixLine(lines[i], prefix)
  {
    if i < |lines| - 1 {
      PrefixLineAt(lines[..|lines| - 1], prefix, i);
    }
  }

  /** The body of the `add_namespace_prefix` loop, for one line. */
  method PrefixOne(line: string, prefix: string) returns (r: string)
    ensures r == PrefixLine(line, prefix)
  {
    if IsClassLine(line) {
      KeywordLineWords(line, ClassWord);
      var className := DeclaredName(line);
      r := Renamed(line, ClassWord, className, prefix);
    } else if IsDefLine(line) {
      KeywordLineWords(line, DefWord);
      var funcName := DeclaredName(line);
      r := Renamed(line, DefWord, funcName, prefix);
    } else {
      r := line;
    }
  }

  /** `add_namespace_prefix`. */
  method AddNamespacePrefix(code: string, prefix: string) returns (r: string)
    ensures r == Join(PrefixLines(Split(code, '\n'), prefix), "\n")
  {
    var lines := Split(code, '\n');
    var prefixedLines: seq<string> := [];
    for i := 0 to |lines|
      invariant prefixedLines == PrefixLines(lines[..i], prefix)
    {
      assert lines[..i + 1][..i] == lines[..i];
      var prefixed := PrefixOne(lines[i], prefix);
      prefixedLines := prefixedLines + [prefixed];
    }
    assert lines[..|lines|] == lines;
    return Join(prefixedLines, "\n");
  }

  /** A rewritten line still holds no newline, given a prefix without one. */
  lemma PrefixLineNoNewline(line: string, prefix: string)
    requires '\n' !in line && '\n' !in prefix
    ensures '\n' !in PrefixLine(line, prefix)
  {
    if IsClassLine(line) {
      KeywordLineWords(line, ClassWord);
      var n := DeclaredName(line);
      ReplaceAbsent(line, ClassWord + n, ClassWord + prefix + "_" + n, '\n');
    } else if IsDefLine(line) {
      KeywordLineWords(line, DefWord);
      var n := DeclaredName(line);
      ReplaceAbsent(line, DefWord + n, DefWord + prefix + "_" + n, '\n');
    }
  }

  /**
   * Read back line by line, the prefixed code has as many lines as the input; each is the
   * rewritten input line, and a line that declares neither a class nor a public function is
   * unchanged.
   */
  lemma PrefixKeepsLines(code: string, prefix: string)
    requires '\n' !in prefix
    ensures var lines := Split(code, '\n');
      var out := Split(Join(PrefixLines(lines, prefix), "\n"), '\n');
      |out| == |lines|
      && (forall i :: 0 <= i < |lines| ==> out[i] == PrefixLine(lines[i], prefix))
      && (forall i :: 0 <= i < |lines| && !IsClassLine(lines[i]) && !IsDefLine(lines[i]) ==> out[i] == lines[i])
  {
    var lines := Split(code, '\n');
    var ps := PrefixLines(lines, prefix);
    forall i | 0 <= i < |ps| ensures ps[i] == PrefixLine(lines[i], prefix) && '\n' !in ps[i] {
      PrefixLineAt(lines, prefix, i);
      PrefixLineNoNewline(lines[i], prefix);
    }
    SplitJoin(ps, '\n');
  }

  // ------------------------------------------------------------ imports

  /** Python's string order: code point by code point, a proper prefix first. */
  predicate StrLe(a: string, b: string) {
    if a == [] then true
    else if b == [] then false
    else if a[0] != b[0] then a[0] < b[0]
    else StrLe(a[1..], b[1..])
  }

  lemma {:induction false} StrLeTotal(a: string, b: string)
    ensures StrLe(a, b) || StrLe(b, a)
  {
    if a != [] && b != [] && a[0] == b[0] {
      StrLeTotal(a[1..], b[1..]);
    }
  }

  lemma {:induction false} StrLeTrans(a: string, b: string, c: string)
    requires StrLe(a, b) && StrLe(b, c)
    ensures StrLe(a, c)
  {
    if a != [] && b != [] && c != [] && a[0] == b[0] && b[0] == c[0] {
      StrLeTrans(a[1..], b[1..], c[1..]);
    }
  }

  predicate Sorted(s: seq<string>) {
    forall i, j :: 0 <= i < j < |s| ==> StrLe(s[i], s[j])
  }

  /** `x` put into the sorted `s` before the first element it does not follow. */
  function Insert(x: string, s: seq<string>): (r: seq<string>)
    requires Sorted(s)
    ensures Sorted(r) && multiset(r) == multiset(s) + multiset{x}
  {
    if s == [] then [x]
    else if StrLe(x, s[0]) then
      InsertFront(x, s);
      [x] + s
    else
      var t := Insert(x, s[1..]);
      InsertBehind(x, s, t);
      [s[0]] + t
  }

  /** A sorted list stays sorted behind an element that precedes all of it. */
  lemma SortedCons(y: string, t: seq<string>)
    requires Sorted(t) && forall j :: 0 <= j < |t| ==> StrLe(y, t[j])
    ensures Sorted([y] + t)
  {
    var r := [y] + t;
    forall i, j | 0 <= i < j < |r| ensures StrLe(r[i], r[j]) {
      assert r[j] == t[j - 1];
      if i > 0 { assert r[i] == t[i - 1]; }
    }
  }

  lemma InsertFront(x: string, s: seq<string>)
    requires Sorted(s) && s != [] && StrLe(x, s[0])
    ensures Sorted([x] + s)
  {
    forall j | 0 <= j < |s| ensures StrLe(x, s[j]) {
      if j > 0 { StrLeTrans(x, s[0], s[j]); }
    }
    SortedCons(x, s);
  }

  lemma InsertBehind(x: string, s: seq<string>, t: seq<string>)
    requires Sorted(s) && s != [] && !StrLe(x, s[0])
    requires Sorted(t) && multiset(t) == multiset(s[1..]) + multiset{x}
    ensures Sorted([s[0]] + t) && multiset([s[0]] + t) == multiset(s) + multiset{x}
  {
    StrLeTotal(x, s[0]);
    assert s == [s[0]] + s[1..];
    forall j | 0 <= j < |t| ensures StrLe(s[0], t[j]) {
      assert t[j] in multiset(t);
      assert t[j] == x || t[j] in multiset(s[1..]);
      if t[j] != x {
        var k :| 1 <= k < |s| && s[k] == t[j] by { assert t[j] in s[1..]; }
      }
    }
    SortedCons(s[0], t);
  }

  /** `sorted(imports)`: the same strings, in order. */
  function SortStrings(s: seq<string>): (r: seq<string>)
    ensures Sorted(r) && multiset(r) == multiset(s)
  {
    if s == [] then []
    else
      assert s == s[..|s| - 1] + [s[|s| - 1]];
      Insert(s[|s| - 1], SortStrings(s[..|s| - 1]))
  }

  const ImportsHeader := "# 合并的导入"
  const ImportWord := "import "

  /** The header and one `import X` line per import, as the loop writes them. */
  function ImportSection(s: seq<string>): string {
    if s == [] then ImportsHeader + "\n"
    else ImportSection(s[..|s| - 1]) + (ImportWord + s[|s| - 1] + "\n")
  }

  function ImportLines(s: seq<string>): (ls: seq<string>)
    ensures |ls| == |s| && forall i :: 0 <= i < |s| ==> ls[i] == ImportWord + s[i]
  {
    if s == [] then [] else ImportLines(s[..|s| - 1]) + [ImportWord + s[|s| - 1]]
  }

  /** `generate_imports_section`. */
  method GenerateImportsSection(imports: seq<string>) returns (r: string)
    ensures imports == [] ==> r == "# 无额外导入"
    ensures imports != [] ==> r == ImportSection(SortStrings(imports))
  {
    if imports == [] {
      return "# 无额外导入";
    }
    var sorted := SortStrings(imports);
    var importSection := ImportsHeader + "\n";
    for i := 0 to |sorted|
      invariant importSection == ImportSection(sorted[..i])
    {
      assert sorted[..i + 1][..i] == sorted[..i];
      importSection := importSection + (ImportWord + sorted[i] + "\n");
    }
    assert sorted[..|sorted|] == sorted;
    return importSection;
  }

  lemma {:induction false} ImportSectionJoin(s: seq<string>)
    ensures ImportSection(s) == Join([ImportsHeader] + ImportLines(s), "\n") + "\n"
  {
    if s != [] {
      var init := s[..|s| - 1];
      var line := ImportWord + s[|s| - 1];
      ImportSectionJoin(init);
      assert [ImportsHeader] + ImportLines(s) == ([ImportsHeader] + ImportLines(init)) + [line];
      JoinNewlineStep([ImportsHeader] + ImportLines(init), line, ImportSection(init));
    }
  }

  /** A text ending in a newline after joined lines, extended by a line and a newline. */
  lemma JoinNewlineStep(ls: seq<string>, line: string, text: string)
    requires |ls| >= 1 && text == Join(ls, "\n") + "\n"
    ensures text + (line + "\n") == Join(ls + [line], "\n") + "\n"
  {
    JoinAppend(ls, line, "\n");
  }

  /**
   * Read back line by line, the section is the header, one `import X` line per import in
   * sorted order, and the empty text after the final newline.
   */
  lemma ImportSectionLines(imports: seq<string>)
    requires forall i :: 0 <= i < |imports| ==> '\n' !in imports[i]
    ensures var s := SortStrings(imports);
      Sorted(s) && multiset(s) == multiset(imports)
      && Split(ImportSection(s), '\n') == [ImportsHeader] + ImportLines(s) + [""]
  {
    var s := SortStrings(imports);
    SortedNoNewline(imports);
    ImportSectionJoin(s);
    LinesSplitBack(s);
  }

  /** Sorting brings in no string that was not there. */
  lemma SortedNoNewline(imports: seq<string>)
    requires NoNewlines(imports)
    ensures NoNewlines(SortStrings(imports))
  {
    var s := SortStrings(imports);
    forall i | 0 <= i < |s| ensures '\n' !in s[i] {
      assert s[i] in multiset(imports);
    }
  }

  predicate NoNewlines(xs: seq<string>) {
    forall i :: 0 <= i < |xs| ==> '\n' !in xs[i]
  }

  lemma NoNewlinesAppend(a: seq<string>, b: seq<string>)
    requires NoNewlines(a) && NoNewlines(b)
    ensures NoNewlines(a + b)
  {
    forall i | 0 <= i < |a + b| ensures '\n' !in (a + b)[i] {
      if i >= |a| { assert (a + b)[i] == b[i - |a|]; }
    }
  }

  lemma LinesSplitBack(s: seq<string>)
    requires NoNewlines(s)
    ensures Split(Join([ImportsHeader] + ImportLines(s), "\n") + "\n", '\n') == [ImportsHeader] + ImportLines(s) + [""]
  {
    var ls := [ImportsHeader] + ImportLines(s);
    JoinAppend(ls, "", "\n");
    ImportLinesNoNewline(s);
    HeaderNoNewline();
    NoNewlinesAppend([ImportsHeader], ImportLines(s));
    NoNewlinesAppend(ls, [""]);
    SplitJoin(ls + [""], '\n');
    assert "\n" == ['\n'];
    assert Join(ls, "\n") + "\n" + "" == Join(ls, "\n") + "\n";
  }

  lemma HeaderNoNewline()
    ensures NoNewlines([ImportsHeader])
  {
    assert [ImportsHeader][0] == ImportsHeader;
  }

  lemma ImportLinesNoNewline(s: seq<string>)
    requires NoNewlines(s)
    ensures NoNewlines(ImportLines(s))
  {
    assert '\n' !in ImportWord;
  }

  // ------------------------------------------------------------ summary

  const ConflictAdvice := "- 需要解决命名冲突\n- 建议使用命名空间隔离\n- 需要统一接口设计\n"
  const CleanAdvice := "- 无冲突，可以直接合并\n- 建议保持原有结构\n"

  function AgentCounts(a: Analysis): string {
    "- 类数量: " + IntToString(|Classes(a)|) + "\n"
    + "- 函数数量: " + IntToString(|Functions(a)|) + "\n"
    + "- 变量数量: " + IntToString(|Variables(a)|) + "\n"
  }

  /** Everything up to the advice. */
  function SummaryHead(a1: Analysis, a2: Analysis, conflicts: seq<Conflict>): string {
    "\n## 智能体合并摘要\n\n### 智能体1分析\n" + AgentCounts(a1)
    + "\n### 智能体2分析  \n" + AgentCounts(a2)
    + "\n### 冲突检测\n- 发现冲突数量: " + IntToString(|conflicts|) + "\n"
    + "- 高严重性冲突: " + IntToString(CountSeverity(conflicts, High)) + "\n"
    + "- 中严重性冲突: " + IntToString(CountSeverity(conflicts, Medium)) + "\n"
    + "- 低严重性冲突: " + IntToString(CountSeverity(conflicts, Low)) + "\n"
    + "\n### 合并建议\n"
  }

  /** `generate_summary`: the advice tells whether there is anything to resolve. */
  function GenerateSummary(a1: Analysis, a2: Analysis, conflicts: seq<Conflict>): (r: string)
    ensures StartsWith(r, SummaryHead(a1, a2, conflicts))
    ensures EndsWith(r, ConflictAdvice) <==> conflicts != []
    ensures EndsWith(r, CleanAdvice) <==> conflicts == []
  {
    var head := SummaryHead(a1, a2, conflicts);
    var advice := if conflicts != [] then ConflictAdvice else CleanAdvice;
    var other := if conflicts != [] then CleanAdvice else ConflictAdvice;
    assert |advice| >= 2 && |other| >= 2 && advice[|advice| - 2] != other[|other| - 2];
    AdviceEnding(head, advice, other);
    head + advice
  }

  /** A text ending in one advice starts with its head and does not end in an advice with another last-but-one character. */
  lemma AdviceEnding(head: string, advice: string, other: string)
    requires |advice| >= 2 && |other| >= 2 && advice[|advice| - 2] != other[|other| - 2]
    ensures StartsWith(head + advice, head) && EndsWith(head + advice, advice)
    ensures !EndsWith(head + advice, other)
  {
    var r := head + advice;
    assert r[..|head|] == head;
    assert r[|r| - |advice|..] == advice;
  }
}

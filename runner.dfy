/** The extended test runner's list-based API: collecting the case list
    (with data-driven suffixes removed and duplicates dropped at method
    level), grouping the loaded tests by module and class, selecting the
    tests a case list names, and the runner's argument checks. The test
    loader, the report runners and JSON output are not modelled: the loader
    is its case list and its loaded suites, given as inputs. */
module Runner {
  import opened Wrappers
  import opened Text
  import opened PyValues

  /** A collected case: its file, class name and method name. */
  datatype Case = Case(file: string, className: string, methodName: string)

  // ---------------------------------------------------------------------
  // Method-name normalisation
  // ---------------------------------------------------------------------

  /** `name.split("_")[-1]`. */
  function LastSegment(name: string): string {
    var parts := Split(name, "_");
    parts[|parts| - 1]
  }

  /** The last `_` segment is a suffix free of `_`, preceded by `_` when
      the name has one, and the whole name when it has none. */
  lemma {:induction false} LastSegmentShape(s: string)
    ensures EndsWith(s, LastSegment(s)) && '_' !in LastSegment(s)
    ensures '_' !in s ==> LastSegment(s) == s
    ensures '_' in s ==> |LastSegment(s)| < |s| && s[|s| - |LastSegment(s)| - 1] == '_'
    decreases |s|, 1
  {
    if Find(s, "_") < 0 {
      LastSegmentWhole(s);
    } else {
      LastSegmentAfterFirst(s);
    }
  }

  /** The recursive case: the shape of the last segment of the text after
      the first `_` carries over to the whole name. */
  lemma {:induction false} LastSegmentAfterFirst(s: string)
    requires Find(s, "_") >= 0
    ensures '_' in s && EndsWith(s, LastSegment(s)) && '_' !in LastSegment(s)
    ensures |LastSegment(s)| < |s| && s[|s| - |LastSegment(s)| - 1] == '_'
    decreases |s|, 0
  {
    var i := Find(s, "_");
    var t := s[i + 1..];
    assert i < |s| && s[i] == '_' && LastSegment(s) == LastSegment(t) by {
      LastSegmentSkip(s);
    }
    LastSegmentShape(t);
    var p := LastSegment(t);
    assert EndsWith(s, p) by {
      assert s[|s| - |p|..] == t[|t| - |p|..];
    }
    assert s[|s| - |p| - 1] == '_' by {
      if '_' in t {
        assert s[|s| - |p| - 1] == t[|t| - |p| - 1];
      } else {
        assert s[|s| - |p| - 1] == s[i];
      }
    }
  }

  /** Without a `_`, the name is its own last segment. */
  lemma LastSegmentWhole(s: string)
    requires Find(s, "_") < 0
    ensures '_' !in s && LastSegment(s) == s
  {
    forall k | 0 <= k < |s| ensures s[k] != '_' {
      assert !OccursAt(s, "_", k);
      assert s[k..k + 1] == [s[k]];
    }
    assert Split(s, "_") == [s];
  }

  /** With a `_`, the last segment is that of the text after the first one. */
  lemma LastSegmentSkip(s: string)
    requires Find(s, "_") >= 0
    ensures var i := Find(s, "_");
      i < |s| && s[i] == '_' && LastSegment(s) == LastSegment(s[i + 1..])
  {
    var i := Find(s, "_");
    assert s[i..i + 1] == "_";
    assert Split(s, "_") == [s[..i]] + Split(s[i + 1..], "_");
  }

  /** The last segment is the `_`-free suffix that follows a `_`. */
  lemma LastSegmentIs(s: string, p: string)
    requires EndsWith(s, "_" + p) && '_' !in p
    ensures LastSegment(s) == p
  {
    var q := LastSegment(s);
    assert s[|s| - |p| - 1] == '_';
    LastSegmentShape(s);
    forall k | |s| - |p| <= k < |s| ensures s[k] != '_' {
      assert s[k] == p[k - (|s| - |p|)];
    }
    forall k | |s| - |q| <= k < |s| ensures s[k] != '_' {
      assert s[k] == q[k - (|s| - |q|)];
    }
    assert |q| == |p|;
    assert q == s[|s| - |q|..] && p == s[|s| - |p|..];
  }

  /** A data-driven name: it has a `_` and its last segment is read by `int()`. */
  predicate HasNumericSuffix(name: string) {
    '_' in name && PyInt(LastSegment(name)).Ok?
  }

  /** Python's `s[:-k]` for `k > 0`. */
  function DropLast(s: string, k: nat): (r: string)
    ensures k <= |s| ==> r == s[..|s| - k]
    ensures k > |s| ==> r == []
  {
    if k <= |s| then s[..|s| - k] else []
  }

  /** The name `collect_cases` keeps at method level: a numeric last
      segment is removed with its `_`. */
  function Normalize(name: string): string {
    if HasNumericSuffix(name) then DropLast(name, |LastSegment(name)| + 1) else name
  }

  /** A normalised name is the name, or the name before its numeric
      suffix and `_`. */
  lemma NormalizeShape(name: string)
    ensures HasNumericSuffix(name) ==> name == Normalize(name) + "_" + LastSegment(name)
    ensures !HasNumericSuffix(name) ==> Normalize(name) == name
  {
    if HasNumericSuffix(name) {
      SuffixShape(name);
    }
  }

  lemma SuffixShape(name: string)
    requires '_' in name
    ensures name == DropLast(name, |LastSegment(name)| + 1) + "_" + LastSegment(name)
  {
    LastSegmentShape(name);
    var last := LastSegment(name);
    assert name == name[..|name| - |last| - 1] + [name[|name| - |last| - 1]] + name[|name| - |last|..];
  }

  function NormalizeCase(c: Case): Case {
    c.(methodName := Normalize(c.methodName))
  }

  function NormalizeAll(cs: seq<Case>): (r: seq<Case>)
    ensures |r| == |cs|
  {
    seq(|cs|, i requires 0 <= i < |cs| => NormalizeCase(cs[i]))
  }

  /** A name ending in `_` and digits is data-driven, and normalising
      removes that suffix. */
  lemma NumericSuffix(s: string, p: string)
    requires EndsWith(s, "_" + p) && |p| > 0 && AllDigits(p)
    ensures HasNumericSuffix(s) && Normalize(s) == s[..|s| - |p| - 1]
  {
    assert '_' !in p by {
      forall k | 0 <= k < |p| ensures p[k] != '_' {
        assert IsDigit(p[k]);
      }
    }
    LastSegmentIs(s, p);
    PyIntOfDigits(p);
    assert s[|s| - |p| - 1] == '_';
  }

  /** Normalising removes one `_` and the digits after it. */
  lemma NormalizeDropsSuffix(name: string, d: string)
    requires |d| > 0 && AllDigits(d)
    ensures Normalize(name + "_" + d) == name
  {
    var s := name + "_" + d;
    assert EndsWith(s, "_" + d) by {
      assert s[|s| - |d| - 1..] == "_" + d;
    }
    NumericSuffix(s, d);
    assert s[..|s| - |d| - 1] == name;
  }

  /** Normalising is not idempotent: a name with two numeric suffixes,
      such as `test_a_1_2`, loses only the last one (`test_a_1`), and a
      second collection removes the other (`test_a`). */
  lemma NormalizeTwice(base: string, d1: string, d2: string)
    requires |d1| > 0 && AllDigits(d1) && |d2| > 0 && AllDigits(d2)
    ensures Normalize(base + "_" + d1 + "_" + d2) == base + "_" + d1
    ensures Normalize(Normalize(base + "_" + d1 + "_" + d2)) == base
  {
    NormalizeDropsSuffix(base + "_" + d1, d2);
    NormalizeDropsSuffix(base, d1);
  }

  // ---------------------------------------------------------------------
  // Removing duplicates
  // ---------------------------------------------------------------------

  /** The key duplicates are detected by. */
  function FullName(c: Case): string {
    c.file + "." + c.className + "." + c.methodName
  }

  function Names(cs: seq<Case>): (r: seq<string>)
    ensures |r| == |cs|
  {
    seq(|cs|, i requires 0 <= i < |cs| => FullName(cs[i]))
  }

  /** The second loop of `collect_cases`: a case is kept when its full name
      is not among the kept ones. */
  function Dedup(cs: seq<Case>): seq<Case> {
    if cs == [] then []
    else
      var d := Dedup(cs[..|cs| - 1]);
      var c := cs[|cs| - 1];
      if FullName(c) in Names(d) then d else d + [c]
  }

  /** Whether an earlier case of `cs` has the full name of case `i`. */
  predicate Repeated(cs: seq<Case>, i: int)
    requires 0 <= i < |cs|
  {
    exists k :: 0 <= k < i && FullName(cs[k]) == FullName(cs[i])
  }

  /** The reference: each case whose full name has not occurred before. */
  function FirstOccurrences(cs: seq<Case>): seq<Case> {
    if cs == [] then []
    else FirstOccurrences(cs[..|cs| - 1]) + (if Repeated(cs, |cs| - 1) then [] else [cs[|cs| - 1]])
  }

  /** The loop keeps exactly the first occurrences, in their original
      order, and the kept full names are those of the input, each once. */
  lemma {:induction false} DedupKeepsFirstOccurrences(cs: seq<Case>)
    ensures Dedup(cs) == FirstOccurrences(cs)
    ensures forall x :: x in Names(Dedup(cs)) <==> x in Names(cs)
    ensures forall i, j :: 0 <= i < j < |Dedup(cs)| ==> FullName(Dedup(cs)[i]) != FullName(Dedup(cs)[j])
  {
    if cs != [] {
      var init := cs[..|cs| - 1];
      var c := cs[|cs| - 1];
      DedupKeepsFirstOccurrences(init);
      var d := Dedup(init);
      assert Names(cs) == Names(init) + [FullName(c)];
      assert FullName(c) in Names(d) <==> Repeated(cs, |cs| - 1) by {
        if Repeated(cs, |cs| - 1) {
          var k :| 0 <= k < |cs| - 1 && FullName(cs[k]) == FullName(c);
          assert Names(init)[k] == FullName(c);
        }
        if FullName(c) in Names(d) {
          assert FullName(c) in Names(init);
          var k :| 0 <= k < |init| && Names(init)[k] == FullName(c);
          assert FullName(cs[k]) == FullName(c);
        }
      }
      if FullName(c) !in Names(d) {
        assert Names(d + [c]) == Names(d) + [FullName(c)];
        forall i | 0 <= i < |d| ensures FullName(d[i]) != FullName(c) {
          assert Names(d)[i] == FullName(d[i]);
        }
      }
    }
  }

  // ---------------------------------------------------------------------
  // collect_cases
  // ---------------------------------------------------------------------

  /** The test loader's collected case list, shared with the runner. */
  class Loader {
    var collectCaseList: seq<Case>

    constructor (cases: seq<Case>)
      ensures collectCaseList == cases
    {
      collectCaseList := cases;
    }
  }

  /** `collect_cases`: at method level the loader's own cases are renamed
      in place, then duplicates are dropped; at data level the list is
      returned as it is; any other level is a ValueError. */
  method CollectCases(loader: Loader, level: string) returns (r: Result<seq<Case>>)
    modifies loader
    ensures level != "data" && level != "method" ==> r == Err(ValueError)
    ensures level != "method" ==> loader.collectCaseList == old(loader.collectCaseList)
    ensures level == "data" ==> r == Ok(old(loader.collectCaseList))
    ensures level == "method" ==> loader.collectCaseList == NormalizeAll(old(loader.collectCaseList))
    ensures level == "method" ==> r == Ok(Dedup(NormalizeAll(old(loader.collectCaseList))))
  {
    if level != "data" && level != "method" {
      return Err(ValueError);
    }
    var cases := loader.collectCaseList;
    if level == "method" {
      var backupOne := RenameDataCases(loader);
      cases := DropDuplicates(backupOne);
    }
    r := Ok(cases);
  }

  /** The first loop of `collect_cases`: each data-driven case of the
      loader is renamed in place and every case is listed. */
  method RenameDataCases(loader: Loader) returns (backupOne: seq<Case>)
    modifies loader
    ensures loader.collectCaseList == NormalizeAll(old(loader.collectCaseList))
    ensures backupOne == loader.collectCaseList
  {
    var cs0 := loader.collectCaseList;
    backupOne := [];
    for i := 0 to |cs0|
      invariant loader.collectCaseList == NormalizeAll(cs0[..i]) + cs0[i..]
      invariant backupOne == NormalizeAll(cs0[..i])
    {
      RenameStep(cs0, i);
      var c := loader.collectCaseList[i];
      if HasNumericSuffix(c.methodName) {
        loader.collectCaseList := loader.collectCaseList[i := NormalizeCase(c)];
      } else {
        NormalizeShape(c.methodName);
        assert loader.collectCaseList == loader.collectCaseList[i := NormalizeCase(c)];
      }
      backupOne := backupOne + [loader.collectCaseList[i]];
    }
    assert cs0[..|cs0|] == cs0;
  }

  /** One step of the renaming loop. */
  lemma RenameStep(cs0: seq<Case>, i: nat)
    requires i < |cs0|
    ensures (NormalizeAll(cs0[..i]) + cs0[i..])[i] == cs0[i]
    ensures NormalizeAll(cs0[..i + 1]) == NormalizeAll(cs0[..i]) + [NormalizeCase(cs0[i])]
    ensures (NormalizeAll(cs0[..i]) + cs0[i..])[i := NormalizeCase(cs0[i])] == NormalizeAll(cs0[..i + 1]) + cs0[i + 1..]
  {
    var pre, post := NormalizeAll(cs0[..i]), NormalizeAll(cs0[..i + 1]);
    forall k | 0 <= k < i + 1
      ensures post[k] == (pre + [NormalizeCase(cs0[i])])[k]
    {
      if k < i {
        assert cs0[..i + 1][k] == cs0[..i][k];
      }
    }
    assert post == pre + [NormalizeCase(cs0[i])];
    var l := pre + cs0[i..];
    assert l[i := NormalizeCase(cs0[i])] == post + cs0[i + 1..];
  }

  /** The second loop of `collect_cases`: a case is kept unless its full
      name is already listed. */
  method DropDuplicates(backupOne: seq<Case>) returns (backupTwo: seq<Case>)
    ensures backupTwo == Dedup(backupOne)
  {
    backupTwo := [];
    var caseFullList: seq<string> := [];
    for i := 0 to |backupOne|
      invariant backupTwo == Dedup(backupOne[..i]) && caseFullList == Names(backupTwo)
    {
      assert backupOne[..i + 1][..i] == backupOne[..i];
      var caseFull := FullName(backupOne[i]);
      if caseFull !in caseFullList {
        caseFullList := caseFullList + [caseFull];
        backupTwo := backupTwo + [backupOne[i]];
      }
    }
    assert backupOne[..|backupOne|] == backupOne;
  }

  // ---------------------------------------------------------------------
  // _load_testsuite
  // ---------------------------------------------------------------------

  /** A loaded test: its module, class name and method name. */
  datatype Test = Test(moduleName: string, className: string, methodName: string)

  /** A member of a discovered suite: a suite of tests, or the stand-in
      test the loader makes for a module that failed to import. */
  datatype Entry = Loaded(tests: seq<Test>) | Failed(message: string)

  function Key(t: Test): string {
    t.moduleName + "." + t.className
  }

  /** The tests of one suite's loaded members, in order. */
  function SuiteTests(entries: seq<Entry>): seq<Test> {
    if entries == [] then []
    else SuiteTests(entries[..|entries| - 1]) + (match entries[|entries| - 1] case Loaded(ts) => ts case Failed(_) => [])
  }

  function AllTests(suits: seq<seq<Entry>>): seq<Test> {
    if suits == [] then [] else AllTests(suits[..|suits| - 1]) + SuiteTests(suits[|suits| - 1])
  }

  /** The mapping the loop fills: each test appended under its key. */
  function Group(ts: seq<Test>): map<string, seq<Test>> {
    if ts == [] then map[]
    else
      var g := Group(ts[..|ts| - 1]);
      var t := ts[|ts| - 1];
      g[Key(t) := (if Key(t) in g then g[Key(t)] else []) + [t]]
  }

  /** The tests with a given key, in order. */
  function WithKey(ts: seq<Test>, key: string): seq<Test> {
    if ts == [] then []
    else WithKey(ts[..|ts| - 1], key) + (if Key(ts[|ts| - 1]) == key then [ts[|ts| - 1]] else [])
  }

  /** The mapping holds exactly the keys of the tests, each with its tests
      in load order. */
  lemma {:induction false} GroupIsWithKey(ts: seq<Test>)
    ensures forall key :: key in Group(ts) <==> WithKey(ts, key) != []
    ensures forall key :: key in Group(ts) ==> Group(ts)[key] == WithKey(ts, key)
  {
    if ts != [] {
      GroupIsWithKey(ts[..|ts| - 1]);
    }
  }

  /** `_load_testsuite`: the tests of every loaded suite grouped under
      `module.class`; with `warning`, the failed imports' messages, one per
      line (the file they are written to is not modelled). */
  method LoadTestsuite(suits: seq<seq<Entry>>, warning: bool) returns (mapping: map<string, seq<Test>>, exceptionInfo: string)
    ensures mapping == Group(AllTests(suits))
  {
    mapping := map[];
    exceptionInfo := "";
    for i := 0 to |suits|
      invariant mapping == Group(AllTests(suits[..i]))
    {
      assert suits[..i + 1][..i] == suits[..i];
      mapping, exceptionInfo := AddSuite(mapping, AllTests(suits[..i]), suits[i], warning, exceptionInfo);
    }
    assert suits[..|suits|] == suits;
  }

  /** The loop over one discovered suite's members. */
  method AddSuite(mapping: map<string, seq<Test>>, ghost before: seq<Test>, entries: seq<Entry>, warning: bool, info: string)
    returns (m: map<string, seq<Test>>, exceptionInfo: string)
    requires mapping == Group(before)
    ensures m == Group(before + SuiteTests(entries))
  {
    m, exceptionInfo := mapping, info;
    assert before + SuiteTests(entries[..0]) == before;
    for j := 0 to |entries|
      invariant m == Group(before + SuiteTests(entries[..j]))
    {
      assert entries[..j + 1][..j] == entries[..j];
      match entries[j]
      case Failed(msg) =>
        if warning {
          exceptionInfo := exceptionInfo + msg + "\n";
        }
        assert SuiteTests(entries[..j + 1]) == SuiteTests(entries[..j]);
      case Loaded(cases) =>
        m := AddTests(m, before + SuiteTests(entries[..j]), cases);
        assert before + SuiteTests(entries[..j]) + cases == before + SuiteTests(entries[..j + 1]);
    }
    assert entries[..|entries|] == entries;
  }

  /** Appending a test adds it at the end of its key's list. */
  lemma GroupSnoc(ts: seq<Test>, t: Test)
    ensures Group(ts + [t]) == Group(ts)[Key(t) := (if Key(t) in Group(ts) then Group(ts)[Key(t)] else []) + [t]]
  {
    assert (ts + [t])[..|ts|] == ts;
  }

  /** The loop over one suite's tests: each is appended under its key. */
  method AddTests(mapping: map<string, seq<Test>>, ghost prefix: seq<Test>, cases: seq<Test>) returns (m: map<string, seq<Test>>)
    requires mapping == Group(prefix)
    ensures m == Group(prefix + cases)
  {
    m := mapping;
    assert prefix + cases[..0] == prefix;
    for k := 0 to |cases|
      invariant m == Group(prefix + cases[..k])
    {
      var c := cases[k];
      assert prefix + cases[..k + 1] == (prefix + cases[..k]) + [c];
      GroupSnoc(prefix + cases[..k], c);
      var key := Key(c);
      if key !in m {
        m := m[key := []];
      }
      m := m[key := m[key] + [c]];
    }
    assert cases[..|cases|] == cases;
  }

  // ---------------------------------------------------------------------
  // run_cases
  // ---------------------------------------------------------------------

  /** Whether a loaded test is added for a requested method, as written: a
      data-driven name is added when it starts with the request. */
  predicate SelectsAsWritten(testName: string, requested: string) {
    if HasNumericSuffix(testName) then StartsWith(testName, requested) else testName == requested
  }

  /** Corrected: the request names the test itself, or the method its
      data-driven suffix was removed from. */
  predicate Selects(testName: string, requested: string) {
    testName == requested || (HasNumericSuffix(testName) && Normalize(testName) == requested)
  }

  /** Corrected, a test is selected by its own name and by the name
      `collect_cases` gives it at method level; every corrected selection
      is one the code as written makes too. */
  lemma CollectedNamesSelect(testName: string, requested: string)
    ensures Selects(testName, testName)
    ensures Selects(testName, Normalize(testName))
    ensures Selects(testName, requested) ==> SelectsAsWritten(testName, requested)
  {
  }

  /** As written, any request that is a proper prefix of a data-driven
      test's name, other than the method the suffix came from, selects it;
      the corrected selection does not. */
  lemma PrefixOvermatches(base: string, d: string, requested: string)
    requires |d| > 0 && AllDigits(d)
    requires StartsWith(base + "_" + d, requested)
    requires requested != base && requested != base + "_" + d
    ensures SelectsAsWritten(base + "_" + d, requested) && !Selects(base + "_" + d, requested)
  {
    NormalizeDropsSuffix(base, d);
  }

  /** As written, a request for `test_a` also runs `test_ab_1`. */
  lemma SelectsAsWrittenOvermatches()
    ensures SelectsAsWritten("test_ab_1", "test_a") && !Selects("test_ab_1", "test_a")
  {
    var base, d, t := "test_ab", "1", "test_ab_1";
    assert t == base + "_" + d;
    PrefixOvermatches(base, d, "test_a");
  }

  /** As written, a request for the data case `test_a_1` also runs
      `test_a_10`. */
  lemma SelectsAsWrittenOvermatchesData()
    ensures SelectsAsWritten("test_a_10", "test_a_1") && !Selects("test_a_10", "test_a_1")
  {
    var base, d, t := "test_a", "10", "test_a_10";
    assert t == base + "_" + d;
    PrefixOvermatches(base, d, "test_a_1");
  }

  /** A requested case: its `file`, its `class` dict's `name` and its
      `method` dict's `name`; the outer None is a missing dict, the inner
      one a missing name. */
  datatype Request = Request(file: Option<string>, cls: Option<Option<string>>, meth: Option<Option<string>>)

  /** A request's own check: a missing dict is an AttributeError (a get on
      None), a missing value a SeldomException. */
  function CheckRequest(d: Request): (r: Result<(string, string, string)>)
    ensures r.Ok? <==> d.file.Some? && d.cls.Some? && d.cls.value.Some? && d.meth.Some? && d.meth.value.Some?
    ensures r.Err? ==> r.error == (if d.cls.None? || d.meth.None? then AttributeError else SeldomException)
  {
    if d.cls.None? || d.meth.None? then Err(AttributeError)
    else if d.file.None? || d.cls.value.None? || d.meth.value.None? then Err(SeldomException)
    else Ok((d.file.value, d.cls.value.value, d.meth.value.value))
  }

  /** Which of the two selections `run_cases` applies: the `startswith`
      test as written, or the corrected one. */
  datatype Selection = AsWritten | Corrected

  predicate Picks(sel: Selection, testName: string, requested: string) {
    match sel
    case AsWritten => SelectsAsWritten(testName, requested)
    case Corrected => Selects(testName, requested)
  }

  /** The tests of one class that a request's method picks, in load order. */
  function FilterSelected(ts: seq<Test>, requested: string, sel: Selection): seq<Test> {
    if ts == [] then []
    else
      FilterSelected(ts[..|ts| - 1], requested, sel)
      + (if Picks(sel, ts[|ts| - 1].methodName, requested) then [ts[|ts| - 1]] else [])
  }

  /** The tests the requests add, in request order. */
  function Added(data: seq<Request>, mapping: map<string, seq<Test>>, sel: Selection): Result<seq<Test>> {
    if data == [] then Ok([])
    else
      var before :- Added(data[..|data| - 1], mapping, sel);
      var req :- CheckRequest(data[|data| - 1]);
      var key := req.0 + "." + req.1;
      Ok(before + (if key in mapping then FilterSelected(mapping[key], req.2, sel) else []))
  }

  /** `run_cases`: a value that is not a list is a TypeError; an empty list
      runs nothing (None); otherwise the suite that is run. */
  function RunCasesSpec(data: Option<seq<Request>>, suits: seq<seq<Entry>>, sel: Selection): Result<Option<seq<Test>>> {
    if data.None? then Err(TypeError)
    else if data.value == [] then Ok(None)
    else
      var added :- Added(data.value, Group(AllTests(suits)), sel);
      Ok(Some(added))
  }

  /** `run_cases` with either selection: `AsWritten` is the code as it
      stands, `Corrected` the selection the rest of the model relies on. */
  method RunCases(data: Option<seq<Request>>, suits: seq<seq<Entry>>, sel: Selection) returns (r: Result<Option<seq<Test>>>)
    ensures r == RunCasesSpec(data, suits, sel)
  {
    if data.None? {
      return Err(TypeError);
    }
    var ds := data.value;
    if |ds| == 0 {
      return Ok(None);
    }
    var suit: seq<Test> := [];
    var caseMapping, _ := LoadTestsuite(suits, false);
    for i := 0 to |ds|
      invariant Added(ds[..i], caseMapping, sel) == Ok(suit)
    {
      assert ds[..i + 1][..i] == ds[..i];
      var req := CheckRequest(ds[i]);
      if req.Err? {
        AddedErrorPersists(ds, i + 1, caseMapping, sel);
        return Err(req.error);
      }
      AddedStep(ds, i, caseMapping, suit, sel);
      var (dFile, dClass, dMethod) := req.value;
      var key := dFile + "." + dClass;
      if key in caseMapping {
        suit := AddSelected(suit, caseMapping[key], dMethod, sel);
      } else {
        assert suit + [] == suit;
      }
    }
    assert ds[..|ds|] == ds;
    r := Ok(Some(suit));
  }

  /** One request that passes its checks extends the suite by the tests of
      its key that its method picks. */
  lemma AddedStep(ds: seq<Request>, i: nat, mapping: map<string, seq<Test>>, suit: seq<Test>, sel: Selection)
    requires i < |ds| && Added(ds[..i], mapping, sel) == Ok(suit) && CheckRequest(ds[i]).Ok?
    ensures var req := CheckRequest(ds[i]).value;
      var key := req.0 + "." + req.1;
      Added(ds[..i + 1], mapping, sel) == Ok(suit + (if key in mapping then FilterSelected(mapping[key], req.2, sel) else []))
  {
    assert ds[..i + 1][..i] == ds[..i];
    assert ds[..i + 1][i] == ds[i];
  }

  /** The loop over a class's tests: each picked one is added to the suite. */
  method AddSelected(suit: seq<Test>, cases: seq<Test>, dMethod: string, sel: Selection) returns (r: seq<Test>)
    ensures r == suit + FilterSelected(cases, dMethod, sel)
  {
    r := suit;
    for k := 0 to |cases|
      invariant r == suit + FilterSelected(cases[..k], dMethod, sel)
    {
      assert cases[..k + 1][..k] == cases[..k];
      if Picks(sel, cases[k].methodName, dMethod) {
        r := r + [cases[k]];
      }
    }
    assert cases[..|cases|] == cases;
  }

  /** Once a prefix of the requests fails its check, the whole list does. */
  lemma {:induction false} AddedErrorPersists(ds: seq<Request>, n: nat, mapping: map<string, seq<Test>>, sel: Selection)
    requires n <= |ds| && Added(ds[..n], mapping, sel).Err?
    ensures Added(ds, mapping, sel) == Added(ds[..n], mapping, sel)
    decreases |ds|
  {
    if n == |ds| {
      assert ds[..n] == ds;
    } else {
      var init := ds[..|ds| - 1];
      assert init[..n] == ds[..n];
      AddedErrorPersists(init, n, mapping, sel);
    }
  }

  /** A well-formed request that names the test's module and class and
      picks its method. */
  predicate RequestSelects(d: Request, t: Test, sel: Selection) {
    CheckRequest(d).Ok? && CheckRequest(d).value.0 + "." + CheckRequest(d).value.1 == Key(t)
    && Picks(sel, t.methodName, CheckRequest(d).value.2)
  }

  /** Some request of `data` picks `t`. */
  predicate SomeSelects(data: seq<Request>, t: Test, sel: Selection) {
    exists i :: 0 <= i < |data| && RequestSelects(data[i], t, sel)
  }

  lemma SomeSelectsSnoc(data: seq<Request>, t: Test, sel: Selection)
    requires data != []
    ensures SomeSelects(data, t, sel) <==>
      SomeSelects(data[..|data| - 1], t, sel) || RequestSelects(data[|data| - 1], t, sel)
  {
    var init := data[..|data| - 1];
    if SomeSelects(init, t, sel) {
      var i :| 0 <= i < |init| && RequestSelects(init[i], t, sel);
      assert data[i] == init[i];
    }
    if SomeSelects(data, t, sel) {
      var i :| 0 <= i < |data| && RequestSelects(data[i], t, sel);
      if i < |init| {
        assert init[i] == data[i];
      }
    }
  }

  /** A test is run exactly when it was loaded and some request picks it,
      under either selection. */
  lemma {:induction false} RunSelects(data: seq<Request>, suits: seq<seq<Entry>>, t: Test, sel: Selection)
    requires Added(data, Group(AllTests(suits)), sel).Ok?
    ensures t in Added(data, Group(AllTests(suits)), sel).value <==>
      (t in AllTests(suits) && SomeSelects(data, t, sel))
  {
    var ts := AllTests(suits);
    var mapping := Group(ts);
    if data != [] {
      var init := data[..|data| - 1];
      var last := data[|data| - 1];
      RunSelects(init, suits, t, sel);
      SomeSelectsSnoc(data, t, sel);
      var req := CheckRequest(last).value;
      var key := req.0 + "." + req.1;
      assert t in (if key in mapping then FilterSelected(mapping[key], req.2, sel) else [])
        <==> t in ts && RequestSelects(last, t, sel) by {
        GroupIsWithKey(ts);
        FilterSelectedMembers(WithKey(ts, key), req.2, t, sel);
        WithKeyMembers(ts, key, t);
      }
    }
  }

  lemma {:induction false} FilterSelectedMembers(ts: seq<Test>, requested: string, t: Test, sel: Selection)
    ensures t in FilterSelected(ts, requested, sel) <==> t in ts && Picks(sel, t.methodName, requested)
  {
    if ts != [] {
      FilterSelectedMembers(ts[..|ts| - 1], requested, t, sel);
      assert ts == ts[..|ts| - 1] + [ts[|ts| - 1]];
    }
  }

  /** Whether the requests pass their checks does not depend on the
      selection. */
  lemma {:induction false} AddedOkEither(data: seq<Request>, mapping: map<string, seq<Test>>)
    ensures Added(data, mapping, AsWritten).Ok? <==> Added(data, mapping, Corrected).Ok?
    decreases |data|
  {
    if data != [] {
      AddedOkEither(data[..|data| - 1], mapping);
    }
  }

  /** `run_cases` as written runs every test the corrected selection runs,
      and possibly more (SelectsAsWrittenOvermatches). */
  lemma CorrectedRunsFewer(data: seq<Request>, suits: seq<seq<Entry>>, t: Test)
    requires Added(data, Group(AllTests(suits)), Corrected).Ok?
    ensures Added(data, Group(AllTests(suits)), AsWritten).Ok?
    ensures t in Added(data, Group(AllTests(suits)), Corrected).value ==>
      t in Added(data, Group(AllTests(suits)), AsWritten).value
  {
    AddedOkEither(data, Group(AllTests(suits)));
    RunSelects(data, suits, t, Corrected);
    RunSelects(data, suits, t, AsWritten);
    if SomeSelects(data, t, Corrected) {
      var i :| 0 <= i < |data| && RequestSelects(data[i], t, Corrected);
      CollectedNamesSelect(t.methodName, CheckRequest(data[i]).value.2);
      assert RequestSelects(data[i], t, AsWritten);
    }
  }

  lemma {:induction false} WithKeyMembers(ts: seq<Test>, key: string, t: Test)
    ensures t in WithKey(ts, key) <==> t in ts && Key(t) == key
  {
    if ts != [] {
      WithKeyMembers(ts[..|ts| - 1], key, t);
      assert ts == ts[..|ts| - 1] + [ts[|ts| - 1]];
    }
  }

  // ---------------------------------------------------------------------
  // TestMain's argument checks
  // ---------------------------------------------------------------------

  const DEVICE_LIST: seq<string> := ["Android", "iOS"]

  /** The settings the checks let through. */
  datatype Settings = Settings(platformName: string, timeout: Value, debug: bool)

  /** `TestMain.__init__`'s checks, in order: the platform name, then an
      int timeout (a bool passes, being an int), then a bool debug flag. */
  function CheckMain(platformName: Option<string>, timeout: Value, debug: Value): (r: Result<Settings>)
    ensures r.Ok? <==> platformName.Some? && platformName.value in DEVICE_LIST && IsInt(timeout) && debug.BoolV?
    ensures r.Err? ==> r.error == TypeError
    ensures r.Ok? ==> r.value == Settings(platformName.value, timeout, debug.b)
  {
    if platformName.None? || platformName.value !in DEVICE_LIST then Err(TypeError)
    else if !IsInt(timeout) then Err(TypeError)
    else if !debug.BoolV? then Err(TypeError)
    else Ok(Settings(platformName.value, timeout, debug.b))
  }

  /** `TestMainExtend.__init__`: no path is a FileNotFoundError before the
      checks. */
  function CheckMainExtend(path: Option<string>, platformName: Option<string>, timeout: Value, debug: Value): (r: Result<Settings>)
    ensures path.None? ==> r == Err(FileNotFoundError)
    ensures path.Some? ==> r == CheckMain(platformName, timeout, debug)
  {
    if path.None? then Err(FileNotFoundError) else CheckMain(platformName, timeout, debug)
  }
}

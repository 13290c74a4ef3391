/** The two pieces of the command-line tool with logic of their own:
    `reset_case`, which moves a common leading package of the collected
    cases' files into the base path, and `create_table`, which writes the
    CREATE TABLE statement for one of the framework's tables. */
module Cli {
  import opened Wrappers
  import opened Text
  import opened Runner

  // ---------------------------------------------------------------------
  // reset_case

  /** `os.path.join(a, b)` with POSIX separators: an absolute `b` replaces
      `a`, otherwise a `/` is inserted unless `a` is empty or ends in one. */
  function PathJoin(a: string, b: string): (r: string)
    ensures EndsWith(r, b)
    ensures StartsWith(b, "/") || StartsWith(r, a)
  {
    if StartsWith(b, "/") then b
    else if a == [] || EndsWith(a, "/") then a + b
    else a + "/" + b
  }

  /** Python's `s[n:]`: empty once `n` is past the end. */
  function SliceFrom(s: string, n: nat): (r: string)
    ensures |r| == if n <= |s| then |s| - n else 0
  {
    if n <= |s| then s[n..] else []
  }

  /** Every case's file names a module inside a package. */
  predicate AllHaveDot(cases: seq<Case>) {
    forall i :: 0 <= i < |cases| ==> '.' in cases[i].file
  }

  /** The first case's file up to its first '.'. */
  function CaseStart(cases: seq<Case>): string
    requires |cases| > 0
  {
    Split(cases[0].file, ".")[0]
  }

  /** Every case's file lies under package `p`. */
  predicate AllUnder(cases: seq<Case>, p: string) {
    forall i :: 0 <= i < |cases| ==> StartsWith(cases[i].file, p + ".")
  }

  /** The cases are rewritten exactly when there is at least one, each file
      has a '.', and all of them share the first file's leading package. */
  predicate Rewrites(cases: seq<Case>) {
    cases != [] && AllHaveDot(cases) && AllUnder(cases, CaseStart(cases))
  }

  /** A case with the leading `n` characters of its file cut off. */
  function StripFile(c: Case, n: nat): Case {
    c.(file := SliceFrom(c.file, n))
  }

  function StripAll(cases: seq<Case>, n: nat): (r: seq<Case>)
    ensures |r| == |cases|
  {
    seq(|cases|, i requires 0 <= i < |cases| => StripFile(cases[i], n))
  }

  /** The path and cases `reset_case` returns. */
  function ResetCase(path: string, cases: seq<Case>): (string, seq<Case>) {
    if Rewrites(cases) then
      var p := CaseStart(cases);
      (PathJoin(path, p), StripAll(cases, |p| + 1))
    else (path, cases)
  }

  /** `reset_case` on the list it is given, which it rewrites in place:
      a loop that gives up on a file without '.', a for-else loop that
      gives up on a file outside the first one's package, and the loop that
      cuts the package off every file (`StripInPlace`). */
  method ResetCaseInPlace(path: string, cases: array<Case>) returns (newPath: string)
    modifies cases
    ensures (newPath, cases[..]) == ResetCase(path, old(cases[..]))
  {
    if cases.Length == 0 {
      return path;
    }
    for i := 0 to cases.Length
      invariant forall k :: 0 <= k < i ==> '.' in cases[k].file
    {
      if '.' !in cases[i].file {
        return path;
      }
    }
    var caseStart := Split(cases[0].file, ".")[0];
    for i := 0 to cases.Length
      invariant forall k :: 0 <= k < i ==> StartsWith(cases[k].file, caseStart + ".")
    {
      if !StartsWith(cases[i].file, caseStart + ".") {
        return path;
      }
    }
    assert Rewrites(cases[..]);
    newPath := PathJoin(path, caseStart);
    StripInPlace(cases, |caseStart| + 1);
  }

  /** The last loop of `reset_case`: cut the leading `n` characters off
      every case's file. */
  method StripInPlace(cases: array<Case>, n: nat)
    modifies cases
    ensures cases[..] == StripAll(old(cases[..]), n)
  {
    for i := 0 to cases.Length
      invariant forall k :: 0 <= k < i ==> cases[k] == StripFile(old(cases[k]), n)
      invariant forall k :: i <= k < cases.Length ==> cases[k] == old(cases[k])
    {
      cases[i] := cases[i].(file := SliceFrom(cases[i].file, n));
    }
  }

  /** A '.' in a string is found by `find`. */
  lemma FindDot(s: string)
    requires '.' in s
    ensures Find(s, ".") >= 0
  {
    var k :| 0 <= k < |s| && s[k] == '.';
    assert s[k..k + 1] == ".";
    assert OccursAt(s, ".", k);
  }

  /** The leading package never holds a '.', and the first file, when it
      has a '.', always lies under it: only the other files can stop the
      rewrite. */
  lemma CaseStartShape(cases: seq<Case>)
    requires |cases| > 0
    ensures '.' !in CaseStart(cases)
    ensures '.' in cases[0].file ==> StartsWith(cases[0].file, CaseStart(cases) + ".")
  {
    var f := cases[0].file;
    SplitHead(f, ".");
    var i := Find(f, ".");
    if i < 0 {
      forall k | 0 <= k < |f| ensures f[k] != '.' {
        assert f[k..k + 1][0] == f[k];
        assert !OccursAt(f, ".", k);
      }
    } else {
      forall k | 0 <= k < i ensures f[k] != '.' {
        assert f[k..k + 1][0] == f[k];
        assert !OccursAt(f, ".", k);
      }
      assert f[..i + 1] == f[..i] + ".";
    }
  }

  /** When the cases are rewritten, the path gains the package, the cases
      keep their number, order, classes and methods, and putting `p.` back
      in front of each new file gives the old one. */
  lemma ResetCaseRoundTrip(path: string, cases: seq<Case>)
    requires Rewrites(cases)
    ensures ResetCase(path, cases).0 == PathJoin(path, CaseStart(cases))
    ensures '.' !in CaseStart(cases)
    ensures |ResetCase(path, cases).1| == |cases|
    ensures forall i :: 0 <= i < |cases| ==>
      CaseStart(cases) + "." + ResetCase(path, cases).1[i].file == cases[i].file
      && ResetCase(path, cases).1[i].className == cases[i].className
      && ResetCase(path, cases).1[i].methodName == cases[i].methodName
  {
    CaseStartShape(cases);
    var p := CaseStart(cases);
    UnderRoundTrip(cases, p);
  }

  /** Cutting `p.` off files that all start with it, and putting it back. */
  lemma UnderRoundTrip(cases: seq<Case>, p: string)
    requires AllUnder(cases, p)
    ensures forall i :: 0 <= i < |cases| ==>
      p + "." + StripAll(cases, |p| + 1)[i].file == cases[i].file
  {
    forall i | 0 <= i < |cases|
      ensures p + "." + StripAll(cases, |p| + 1)[i].file == cases[i].file
    {
      var f := cases[i].file;
      assert StartsWith(f, p + ".");
      assert f == f[..|p| + 1] + f[|p| + 1..];
    }
  }

  /** The cases change exactly when they are rewritten; otherwise both the
      path and the cases come back as given. */
  lemma ResetCaseChanges(path: string, cases: seq<Case>)
    ensures Rewrites(cases) <==> ResetCase(path, cases).1 != cases
    ensures !Rewrites(cases) ==> ResetCase(path, cases) == (path, cases)
  {
    if Rewrites(cases) {
      var p := CaseStart(cases);
      var newCases := ResetCase(path, cases).1;
      assert StartsWith(cases[0].file, p + ".");
      assert |newCases[0].file| < |cases[0].file|;
    }
  }

  /** The leading package is pinned down by a '.'-free prefix of the first
      file followed by '.'. */
  lemma CaseStartIs(cases: seq<Case>, p: string)
    requires |cases| > 0 && StartsWith(cases[0].file, p + ".") && '.' !in p
    ensures CaseStart(cases) == p
  {
    var f := cases[0].file;
    assert f[|p|..|p| + 1] == ".";
    forall k | 0 <= k < |p| ensures !OccursAt(f, ".", k) {
      assert f[k] == p[k];
      assert f[k..k + 1][0] == f[k];
    }
    FindIs(f, ".", |p|);
    SplitHead(f, ".");
  }

  /** Files that all lie under a '.'-free package `p` are rewritten with it. */
  lemma ResetCaseUnder(path: string, cases: seq<Case>, p: string)
    requires |cases| > 0 && AllUnder(cases, p) && '.' !in p
    ensures ResetCase(path, cases) == (PathJoin(path, p), StripAll(cases, |p| + 1))
  {
    CaseStartIs(cases, p);
    forall i | 0 <= i < |cases| ensures '.' in cases[i].file {
      var f := cases[i].file;
      assert StartsWith(f, p + ".");
      assert f[|p|] == (p + ".")[|p|];
    }
    assert Rewrites(cases);
  }

  // ---------------------------------------------------------------------
  // create_table

  /** A table definition: column names and types in definition order. */
  type Columns = seq<(string, string)>

  const ID_COLUMN: string := "id INTEGER PRIMARY KEY AUTOINCREMENT"

  function Definition(f: (string, string)): string {
    f.0 + " " + f.1
  }

  function Definitions(attr: Columns): (r: seq<string>)
    ensures |r| == |attr|
  {
    seq(|attr|, i requires 0 <= i < |attr| => Definition(attr[i]))
  }

  /** The column list: the id column first, then one `name type` per field. */
  function ColumnList(attr: Columns): string {
    Join([ID_COLUMN] + Definitions(attr), ", ")
  }

  /** `tables_attr.get(table_name)`: the table's definition, if any. */
  function Lookup(tables: map<string, Columns>, tableName: string): Option<Columns> {
    if tableName in tables then Some(tables[tableName]) else None
  }

  /** The statement `create_table` executes; a table with no definition, or
      an empty one, is a ValueError. */
  function CreateTableSql(tableName: string, attr: Option<Columns>): Result<string> {
    if attr.None? || attr.value == [] then Err(ValueError)
    else Ok("CREATE TABLE IF NOT EXISTS " + tableName + " (" + ColumnList(attr.value) + ");")
  }

  /** `create_table`: look the table up and build its definitions list. */
  method CreateTable(tables: map<string, Columns>, tableName: string) returns (r: Result<string>)
    ensures r == CreateTableSql(tableName, Lookup(tables, tableName))
  {
    if tableName !in tables || tables[tableName] == [] {
      return Err(ValueError);
    }
    var attr := tables[tableName];
    var fieldsDefinitions := [ID_COLUMN];
    for i := 0 to |attr|
      invariant fieldsDefinitions == [ID_COLUMN] + Definitions(attr[..i])
    {
      assert Definitions(attr[..i + 1]) == Definitions(attr[..i]) + [Definition(attr[i])];
      fieldsDefinitions := fieldsDefinitions + [attr[i].0 + " " + attr[i].1];
    }
    assert attr[..|attr|] == attr;
    var fieldsSql := Join(fieldsDefinitions, ", ");
    r := Ok("CREATE TABLE IF NOT EXISTS " + tableName + " (" + fieldsSql + ");");
  }

  /** Splitting the column list at ", " gives the id column and then each
      field's `name type` in definition order, provided no name or type
      holds a ','. */
  lemma ColumnsReadBack(attr: Columns)
    requires forall i :: 0 <= i < |attr| ==> ',' !in attr[i].0 && ',' !in attr[i].1
    ensures var cols := Split(ColumnList(attr), ", ");
      |cols| == |attr| + 1 && cols[0] == ID_COLUMN
      && forall i :: 0 <= i < |attr| ==> cols[i + 1] == attr[i].0 + " " + attr[i].1
  {
    var parts := [ID_COLUMN] + Definitions(attr);
    forall i | 0 <= i < |parts| ensures ", "[0] !in parts[i] {
      if i > 0 {
        assert parts[i] == attr[i - 1].0 + " " + attr[i - 1].1;
      }
    }
    SplitJoin(parts, ", ");
  }

  /** The statement is refused exactly when the table has no fields. */
  lemma CreateTableFails(tables: map<string, Columns>, tableName: string)
    ensures CreateTableSql(tableName, Lookup(tables, tableName)).Err?
      <==> tableName !in tables || |tables[tableName]| == 0
    ensures CreateTableSql(tableName, Lookup(tables, tableName)).Err? ==>
      CreateTableSql(tableName, Lookup(tables, tableName)).error == ValueError
  {
  }
}

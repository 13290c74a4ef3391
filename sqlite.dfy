/** The SQL text the database helper builds, and the configuration table as
    a key/value store. The database engine is not modelled: a statement is
    its text and its bound parameters, and the configuration table is the
    sequence of its rows in row-id order. JSON encoding is a library call:
    a list or dict carries its JSON text, and a configuration value is
    stored and returned as the JSON text of the Python value. */
module Sqlite {
  import opened Wrappers
  import opened Text
  import opened PyValues

  /** A Python dict: its entries in insertion order. */
  type Dict = seq<(string, Value)>

  function Keys(d: Dict): (r: seq<string>)
    ensures |r| == |d|
  {
    seq(|d|, i requires 0 <= i < |d| => d[i].0)
  }

  // ---------------------------------------------------------------------
  // insert_data
  // ---------------------------------------------------------------------

  /** A statement and the parameters bound to its placeholders. */
  datatype Statement = Statement(sql: string, params: seq<Value>)

  /** Lists and dicts are bound as their JSON text, anything else as is. */
  function Bind(v: Value): (b: Value)
    ensures v.ListV? || v.DictV? ==> b == StrV(v.json)
    ensures !v.ListV? && !v.DictV? ==> b == v
  {
    if v.ListV? || v.DictV? then StrV(v.json) else v
  }

  function Marks(n: nat): (r: seq<string>)
    ensures |r| == n
  {
    seq(n, _ => "?")
  }

  function Columns(data: Dict): string {
    Join(Keys(data), ", ")
  }

  function Placeholders(n: nat): string {
    Join(Marks(n), ", ")
  }

  /** `insert_data`: the column list in dict order, one `?` per column and
      one bound parameter per value. */
  function InsertData(table: string, data: Dict): (st: Statement)
    ensures |st.params| == |data|
  {
    Statement("INSERT INTO " + table + " (" + Columns(data) + ") VALUES (" + Placeholders(|data|) + ")",
      seq(|data|, i requires 0 <= i < |data| => Bind(data[i].1)))
  }

  /** Reading the insert back: the column list splits into the keys in dict
      order, the placeholder list into one `?` per key, and parameter `i`
      is value `i`, JSON-encoded when it is a list or dict. */
  lemma InsertShape(table: string, data: Dict)
    requires |data| > 0
    requires forall i :: 0 <= i < |data| ==> ',' !in data[i].0
    ensures Split(Columns(data), ", ") == Keys(data)
    ensures Split(Placeholders(|data|), ", ") == Marks(|data|)
    ensures forall i :: 0 <= i < |data| ==> InsertData(table, data).params[i] == Bind(data[i].1)
  {
    SplitJoin(Keys(data), ", ");
    SplitJoin(Marks(|data|), ", ");
  }

  // ---------------------------------------------------------------------
  // dict_to_str and dict_to_str_and
  // ---------------------------------------------------------------------

  /** How a value is written into SQL text: None as `null`, an int (a bool
      included) by `str()`, anything else by `str()` in single quotes. */
  function Literal(v: Value): string {
    if v.NoneV? then "null" else if IsInt(v) then Str(v) else "'" + Str(v) + "'"
  }

  predicate Quoted(v: Value) {
    !v.NoneV? && !IsInt(v)
  }

  function Assignment(k: string, v: Value): string {
    k + "=" + Literal(v)
  }

  function Assignments(d: Dict): (r: seq<string>)
    ensures |r| == |d|
  {
    seq(|d|, i requires 0 <= i < |d| => Assignment(d[i].0, d[i].1))
  }

  /** The text `dict_to_str` returns: the assignments joined by ",". */
  function SetClause(d: Dict): string {
    Join(Assignments(d), ",")
  }

  /** The text `dict_to_str_and` returns: the same assignments joined by
      " and ". */
  function Conditions(d: Dict): string {
    Join(Assignments(d), " and ")
  }

  /** The loop both helpers share: one assignment per entry, in order. */
  method JoinAssignments(data: Dict, sep: string) returns (s: string)
    ensures s == Join(Assignments(data), sep)
  {
    var tmpList: seq<string> := [];
    for i := 0 to |data|
      invariant tmpList == Assignments(data[..i])
    {
      tmpList := tmpList + [Assignment(data[i].0, data[i].1)];
    }
    assert data[..|data|] == data;
    s := Join(tmpList, sep);
  }

  method DictToStr(data: Dict) returns (s: string)
    ensures s == SetClause(data)
  {
    s := JoinAssignments(data, ",");
  }

  method DictToStrAnd(conditions: Dict) returns (s: string)
    ensures s == Conditions(conditions)
  {
    s := JoinAssignments(conditions, " and ");
  }

  /** A rendered value tells its kind: `null`, an unquoted int read back
      by `int()`, `True`/`False`, or quoted text. */
  lemma LiteralReadsBack(v: Value)
    ensures v.NoneV? ==> Literal(v) == "null"
    ensures v.IntV? ==> PyInt(Literal(v)) == Ok(v.i)
    ensures v.BoolV? ==> Literal(v) == (if v.b then "True" else "False")
    ensures Quoted(v) <==> |Literal(v)| > 0 && Literal(v)[0] == '\''
  {
    if v.IntV? {
      PyIntRoundTrip(v.i);
      IntStartsWithDigitOrSign(v.i);
    }
  }

  lemma IntStartsWithDigitOrSign(i: int)
    ensures IntToString(i)[0] == '-' || IsDigit(IntToString(i)[0])
  {
  }

  /** Two values rendered alike are the same unquoted value, or quoted
      values with the same `str()`. */
  lemma LiteralInjective(v: Value, w: Value)
    requires Literal(v) == Literal(w)
    ensures Quoted(v) <==> Quoted(w)
    ensures !Quoted(v) ==> v == w
    ensures Quoted(v) ==> Str(v) == Str(w)
  {
    LiteralReadsBack(v);
    LiteralReadsBack(w);
    if !Quoted(v) && !Quoted(w) {
      if v.IntV? {
        IntStartsWithDigitOrSign(v.i);
      }
      if w.IntV? {
        IntStartsWithDigitOrSign(w.i);
      }
    } else if Quoted(v) && Quoted(w) {
      assert Str(v) == Literal(v)[1..|Literal(v)| - 1];
    }
  }

  /** Both clauses split back into one `k=literal` per entry, in order,
      when no rendered entry holds the separator's first character. */
  lemma ClausesReadBack(d: Dict)
    requires |d| > 0
    ensures (forall i :: 0 <= i < |d| ==> ',' !in Assignments(d)[i]) ==> Split(SetClause(d), ",") == Assignments(d)
    ensures (forall i :: 0 <= i < |d| ==> ' ' !in Assignments(d)[i]) ==> Split(Conditions(d), " and ") == Assignments(d)
  {
    if forall i :: 0 <= i < |d| ==> ',' !in Assignments(d)[i] {
      SplitJoin(Assignments(d), ",");
    }
    if forall i :: 0 <= i < |d| ==> ' ' !in Assignments(d)[i] {
      SplitJoin(Assignments(d), " and ");
    }
  }

  // ---------------------------------------------------------------------
  // select_data, update_data, delete_data
  // ---------------------------------------------------------------------

  /** The where clause `delete_data` appends for a given dict. */
  function WhereClause(where: Option<Dict>): string {
    if where.Some? then " where " + Conditions(where.value) + ";" else ""
  }

  /** `select_data` as written: the clause starts with `where` and no space. */
  function SelectSqlAsWritten(table: string, where: Option<Dict>): string {
    "select * from " + table + (if where.Some? then "where " + Conditions(where.value) + ";" else "")
  }

  /** `select_data` corrected: the same clause as `delete_data`. */
  function SelectSql(table: string, where: Option<Dict>): string {
    "select * from " + table + WhereClause(where)
  }

  /** `update_data`: a where clause only for a non-empty dict. */
  function UpdateSql(table: string, data: Dict, where: Option<Dict>): string {
    "update " + table + " set " + SetClause(data) + (if where.Some? && where.value != [] then WhereClause(where) else "")
  }

  /** `delete_data`: a where clause whenever a dict is given. */
  function DeleteSql(table: string, where: Option<Dict>): string {
    "delete from " + table + WhereClause(where)
  }

  /** As written, a select with conditions runs the table name into the
      keyword: `config` with `key='a'` selects from `configwhere`. */
  lemma SelectRunsIntoTable()
    ensures SelectSqlAsWritten("config", Some([("key", StrV("a"))])) == "select * from configwhere key='a';"
    ensures SelectSqlAsWritten("config", Some([("key", StrV("a"))])) != SelectSql("config", Some([("key", StrV("a"))]))
  {
    var d: Dict := [("key", StrV("a"))];
    assert Literal(StrV("a")) == "'a'";
    assert Assignment("key", StrV("a")) == "key='a'";
    assert Assignments(d)[0] == Assignment(d[0].0, d[0].1);
    assert Assignments(d) == ["key='a'"];
    assert Conditions(d) == "key='a'";
  }

  /** Corrected, a select and a delete on the same table and dict end in
      the same text; without a dict neither has a clause. */
  lemma SelectAgreesWithDelete(table: string, where: Option<Dict>)
    ensures SelectSql(table, where)[|"select * from "|..] == DeleteSql(table, where)[|"delete from "|..]
    ensures where.None? ==> SelectSql(table, where) == "select * from " + table
    ensures where.Some? ==> EndsWith(SelectSql(table, where), " where " + Conditions(where.value) + ";")
  {
  }

  /** An empty dict: `update_data` leaves out the clause, while
      `delete_data` still appends ` where ;`. */
  lemma EmptyWhere(table: string, data: Dict)
    ensures UpdateSql(table, data, Some([])) == "update " + table + " set " + SetClause(data)
    ensures UpdateSql(table, data, None) == UpdateSql(table, data, Some([]))
    ensures DeleteSql(table, Some([])) == "delete from " + table + " where ;"
  {
    assert Assignments([]) == [];
  }

  // ---------------------------------------------------------------------
  // The configuration table
  // ---------------------------------------------------------------------

  /** A configuration row: its row id, key and JSON-encoded value. */
  datatype Row = Row(id: nat, key: string, value: string)

  /** The rows in row-id order and the next row id to hand out. */
  datatype Table = Table(rows: seq<Row>, nextId: nat)

  predicate UniqueKeys(rows: seq<Row>) {
    forall i, j :: 0 <= i < j < |rows| ==> rows[i].key != rows[j].key
  }

  predicate HasKey(rows: seq<Row>, key: string) {
    exists i :: 0 <= i < |rows| && rows[i].key == key
  }

  /** The values of the rows with the given key, in row order: what
      `select value ... where key=:key` returns. */
  function ValuesOf(rows: seq<Row>, key: string): (r: seq<string>)
    ensures |r| <= |rows|
  {
    if rows == [] then []
    else ValuesOf(rows[..|rows| - 1], key) + (if rows[|rows| - 1].key == key then [rows[|rows| - 1].value] else [])
  }

  /** Row `i` is the first row with the key. */
  predicate IsFirstMatch(rows: seq<Row>, key: string, i: int) {
    0 <= i < |rows| && rows[i].key == key && forall j :: 0 <= j < i ==> rows[j].key != key
  }

  /** `Config.get`: the first matching row's value, None when no row matches. */
  function ConfigGet(rows: seq<Row>, key: string): (r: Option<string>)
    ensures r.None? <==> !HasKey(rows, key)
    ensures r.Some? ==> exists i :: IsFirstMatch(rows, key, i) && rows[i].value == r.value
  {
    ValuesOfEmpty(rows, key);
    var vs := ValuesOf(rows, key);
    if vs == [] then None
    else
      ValuesOfFirst(rows, key);
      Some(vs[0])
  }

  /** No value is found exactly when no row has the key. */
  lemma {:induction false} ValuesOfEmpty(rows: seq<Row>, key: string)
    ensures ValuesOf(rows, key) == [] <==> !HasKey(rows, key)
  {
    if rows != [] {
      var init := rows[..|rows| - 1];
      ValuesOfEmpty(init, key);
      if HasKey(init, key) {
        var i :| 0 <= i < |init| && init[i].key == key;
        assert rows[i] == init[i];
      }
      if HasKey(rows, key) && rows[|rows| - 1].key != key {
        var i :| 0 <= i < |rows| && rows[i].key == key;
        assert init[i] == rows[i];
      }
    }
  }

  /** The first value found is the first matching row's. */
  lemma {:induction false} ValuesOfFirst(rows: seq<Row>, key: string)
    requires HasKey(rows, key)
    ensures ValuesOf(rows, key) != []
    ensures exists i :: IsFirstMatch(rows, key, i) && rows[i].value == ValuesOf(rows, key)[0]
  {
    var init := rows[..|rows| - 1];
    ValuesOfEmpty(init, key);
    if HasKey(init, key) {
      ValuesOfFirst(init, key);
      var i :| IsFirstMatch(init, key, i) && init[i].value == ValuesOf(init, key)[0];
      assert rows[i] == init[i];
      assert IsFirstMatch(rows, key, i);
    } else {
      var i := |rows| - 1;
      forall j | 0 <= j < i ensures rows[j].key != key {
        assert rows[j] == init[j];
      }
      assert IsFirstMatch(rows, key, i);
    }
  }

  /** Inserting a row: a table whose key column rejects duplicates raises
      IntegrityError for a key it holds. */
  function Insert(t: Table, key: string, value: string, keyUnique: bool): (r: Result<Table>)
    ensures r.Err? <==> keyUnique && HasKey(t.rows, key)
    ensures r.Err? ==> r.error == IntegrityError
    ensures r.Ok? ==> r.value.rows == t.rows + [Row(t.nextId, key, value)] && r.value.nextId == t.nextId + 1
  {
    if keyUnique && HasKey(t.rows, key) then Err(IntegrityError)
    else Ok(Table(t.rows + [Row(t.nextId, key, value)], t.nextId + 1))
  }

  /** `update ... set value=? where key=?`. */
  function UpdateValue(rows: seq<Row>, key: string, value: string): (r: seq<Row>)
    ensures |r| == |rows|
    ensures forall i :: 0 <= i < |rows| ==>
      r[i] == (if rows[i].key == key then rows[i].(value := value) else rows[i])
  {
    seq(|rows|, i requires 0 <= i < |rows| => if rows[i].key == key then rows[i].(value := value) else rows[i])
  }

  /** `Config.set`: insert, and update instead when the insert raises
      IntegrityError. */
  function SetOn(t: Table, key: string, value: string, keyUnique: bool): Table {
    var ins := Insert(t, key, value, keyUnique);
    if ins.Ok? then ins.value else t.(rows := UpdateValue(t.rows, key, value))
  }

  /** `Config.set` on the table `create_table` defines, whose only
      constraint is on the row id: the insert never fails. */
  function ConfigSetAsWritten(t: Table, key: string, value: string): Table {
    SetOn(t, key, value, false)
  }

  /** `Config.set` on a table whose key column rejects duplicates: the
      upsert the code is written for. */
  function ConfigSet(t: Table, key: string, value: string): Table {
    SetOn(t, key, value, true)
  }

  /** Corrected, a set is read back by the next get, leaves other keys
      alone and keeps keys unique. */
  lemma SetThenGet(t: Table, key: string, value: string, other: string)
    requires other != key
    ensures ConfigGet(ConfigSet(t, key, value).rows, key) == Some(value)
    ensures ConfigGet(ConfigSet(t, key, value).rows, other) == ConfigGet(t.rows, other)
    ensures UniqueKeys(t.rows) ==> UniqueKeys(ConfigSet(t, key, value).rows)
  {
    var r := ConfigSet(t, key, value).rows;
    if HasKey(t.rows, key) {
      assert r == UpdateValue(t.rows, key, value);
      SameKeysAfterUpdate(t.rows, key, value, other);
    } else {
      assert r == t.rows + [Row(t.nextId, key, value)];
      SnocOtherKey(t.rows, Row(t.nextId, key, value), other);
      assert ValuesOf(r, key) == ValuesOf(t.rows, key) + [value] by {
        assert r[..|r| - 1] == t.rows;
      }
      ValuesOfEmpty(t.rows, key);
    }
  }

  /** Updating one key rewrites that key's values and no other key's. */
  lemma {:induction false} UpdatedValues(rows: seq<Row>, key: string, value: string, k: string)
    ensures ValuesOf(UpdateValue(rows, key, value), k) ==
      (if k == key then seq(|ValuesOf(rows, k)|, _ => value) else ValuesOf(rows, k))
  {
    var u := UpdateValue(rows, key, value);
    if rows != [] {
      var init := rows[..|rows| - 1];
      assert u[..|u| - 1] == UpdateValue(init, key, value);
      UpdatedValues(init, key, value, k);
    }
  }

  /** Updating one key keeps every row's key and the other keys' values,
      and a get of the key finds the new value. */
  lemma SameKeysAfterUpdate(rows: seq<Row>, key: string, value: string, other: string)
    requires other != key
    ensures ValuesOf(UpdateValue(rows, key, value), other) == ValuesOf(rows, other)
    ensures ConfigGet(UpdateValue(rows, key, value), key) == (if HasKey(rows, key) then Some(value) else None)
    ensures UniqueKeys(rows) ==> UniqueKeys(UpdateValue(rows, key, value))
  {
    UpdatedValues(rows, key, value, other);
    UpdatedValues(rows, key, value, key);
    ValuesOfEmpty(rows, key);
    ValuesOfEmpty(UpdateValue(rows, key, value), key);
  }

  lemma SnocOtherKey(rows: seq<Row>, row: Row, other: string)
    requires row.key != other
    ensures ValuesOf(rows + [row], other) == ValuesOf(rows, other)
  {
    assert (rows + [row])[..|rows|] == rows;
  }

  /** As written, a second set of a key is never read back: the first
      row stays the one `get` finds. */
  lemma StaleGetAsWritten(t: Table, key: string, value: string)
    requires ConfigGet(t.rows, key).Some?
    ensures ConfigGet(ConfigSetAsWritten(t, key, value).rows, key) == ConfigGet(t.rows, key)
    ensures |ConfigSetAsWritten(t, key, value).rows| == |t.rows| + 1
  {
    var r := ConfigSetAsWritten(t, key, value).rows;
    assert r == t.rows + [Row(t.nextId, key, value)];
    assert r[..|r| - 1] == t.rows;
    ValuesOfEmpty(t.rows, key);
  }

  /** Setting `fps` to "1" then "2" on an empty table, as written, reads
      back "1". */
  lemma StaleGetExample()
    ensures ConfigGet(ConfigSetAsWritten(ConfigSetAsWritten(Table([], 1), "fps", "1"), "fps", "2").rows, "fps") == Some("1")
  {
    var t1 := ConfigSetAsWritten(Table([], 1), "fps", "1");
    assert t1.rows == [Row(1, "fps", "1")];
    assert ConfigGet(t1.rows, "fps") == Some("1") by {
      assert ValuesOf(t1.rows, "fps") == ["1"] by {
        assert t1.rows[..0] == [];
      }
    }
    StaleGetAsWritten(t1, "fps", "2");
  }

  // ---- get_all ----

  /** `get_all` as written: each row's first column is taken as the key
      and its second as the value, that is the row id and the key. */
  function AllAsWritten(rows: seq<Row>): map<nat, string> {
    if rows == [] then map[] else AllAsWritten(rows[..|rows| - 1])[rows[|rows| - 1].id := rows[|rows| - 1].key]
  }

  /** `get_all` corrected: each key with its value; a later row wins. */
  function All(rows: seq<Row>): map<string, string> {
    if rows == [] then map[] else All(rows[..|rows| - 1])[rows[|rows| - 1].key := rows[|rows| - 1].value]
  }

  /** As written, the one row `fps` = "45" comes back as row id 1 mapped
      to the text "fps"; its value is lost. */
  lemma AllAsWrittenLosesValues()
    ensures AllAsWritten([Row(1, "fps", "45")]) == map[1 := "fps"]
    ensures "45" !in AllAsWritten([Row(1, "fps", "45")]).Values
  {
    assert [Row(1, "fps", "45")][..0] == [];
  }

  /** Corrected, with unique keys, `get_all` holds exactly the keys of the
      table, each with the value `get` returns. */
  lemma {:induction false} AllAgreesWithGet(rows: seq<Row>)
    requires UniqueKeys(rows)
    ensures forall k :: k in All(rows) <==> HasKey(rows, k)
    ensures forall k :: k in All(rows) ==> ConfigGet(rows, k) == Some(All(rows)[k])
  {
    if rows != [] {
      var init := rows[..|rows| - 1];
      var last := rows[|rows| - 1];
      assert UniqueKeys(init);
      AllAgreesWithGet(init);
      forall k ensures k in All(rows) <==> HasKey(rows, k) {
        if HasKey(init, k) {
          var i :| 0 <= i < |init| && init[i].key == k;
          assert rows[i] == init[i];
        }
        if HasKey(rows, k) && k != last.key {
          var i :| 0 <= i < |rows| && rows[i].key == k;
          assert init[i] == rows[i];
        }
      }
      forall k | k in All(rows) ensures ConfigGet(rows, k) == Some(All(rows)[k]) {
        assert rows == init + [last];
        if k == last.key {
          forall i | 0 <= i < |init| ensures init[i].key != k {
            assert init[i] == rows[i];
          }
          ValuesOfEmpty(init, k);
        } else {
          SnocOtherKey(init, last, k);
        }
      }
    }
  }

  /** The configuration store: the rows of the configuration table. */
  class Config {
    var rows: seq<Row>
    var nextId: nat

    function Contents(): Table
      reads this
    {
      Table(rows, nextId)
    }

    predicate Valid()
      reads this
    {
      UniqueKeys(rows)
    }

    /** Opening the store on the table as it is. */
    constructor (existing: Table)
      requires UniqueKeys(existing.rows)
      ensures Valid() && Contents() == existing
    {
      rows := existing.rows;
      nextId := existing.nextId;
    }

    /** `set`: try the insert; on IntegrityError update the key's rows. */
    method Set(key: string, value: string)
      requires Valid()
      modifies this
      ensures Valid() && Contents() == ConfigSet(old(Contents()), key, value)
    {
      var ins := Insert(Contents(), key, value, true);
      if ins.Ok? {
        rows, nextId := ins.value.rows, ins.value.nextId;
        assert UniqueKeys(rows) by {
          forall i, j | 0 <= i < j < |rows| ensures rows[i].key != rows[j].key {
            if j == |rows| - 1 {
              assert rows[i] == old(rows)[i];
            }
          }
        }
      } else {
        SameKeysAfterUpdate(rows, key, value, key + "_");
        rows := UpdateValue(rows, key, value);
      }
    }

    /** `get`: query the matching values and take the first, or None. */
    method Get(key: string) returns (r: Option<string>)
      ensures r == ConfigGet(rows, key)
    {
      var dataList: seq<string> := [];
      for i := 0 to |rows|
        invariant dataList == ValuesOf(rows[..i], key)
      {
        assert rows[..i + 1][..i] == rows[..i];
        if rows[i].key == key {
          dataList := dataList + [rows[i].value];
        }
      }
      assert rows[..|rows|] == rows;
      if dataList == [] {
        return None;
      }
      r := Some(dataList[0]);
    }

    /** `get_all` corrected: the keys with their values. */
    method GetAll() returns (dic: map<string, string>)
      ensures dic == All(rows)
    {
      dic := map[];
      for i := 0 to |rows|
        invariant dic == All(rows[..i])
      {
        assert rows[..i + 1][..i] == rows[..i];
        dic := dic[rows[i].key := rows[i].value];
      }
      assert rows[..|rows|] == rows;
    }

    /** `clear`: every row is deleted; row ids keep counting. */
    method Clear()
      modifies this
      ensures Valid() && rows == [] && nextId == old(nextId)
    {
      rows := [];
    }
  }
}

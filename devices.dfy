/** The Android device helpers of the performance collector: reading the
    connected device ids from `adb devices`, building a package's pid list
    from `ps` output and moving the main process to its front, and the
    package-name filter. The adb output is an input here: each command's
    output is given as its list of lines. */
module Devices {
  import opened Wrappers
  import opened Text

  // ---------------------------------------------------------------------
  // getDeviceIds
  // ---------------------------------------------------------------------

  /** The lines `getDeviceIds` reads: all but the first (the
      "List of devices attached" header) and the last (the closing empty
      line). Fewer than three lines leave nothing. */
  function DeviceLines(ids: seq<string>): (body: seq<string>)
    ensures |ids| >= 2 ==> |body| == |ids| - 2 && forall k :: 0 <= k < |body| ==> body[k] == ids[k + 1]
    ensures |ids| < 2 ==> body == []
  {
    if |ids| < 2 then [] else ids[1..|ids| - 1]
  }

  /** The ids of the lines whose state is `device`, in line order; a line
      that does not split into exactly an id and a state is a ValueError
      (the unpacking of `split()`'s result). */
  function DeviceIdsOf(lines: seq<string>, split: string -> seq<string>): Result<seq<string>> {
    if lines == [] then Ok([])
    else
      var a := DeviceIdsOf(lines[..|lines| - 1], split);
      var f := split(lines[|lines| - 1]);
      if a.Err? then a
      else if |f| != 2 then Err(ValueError)
      else Ok(a.value + (if f[1] == "device" then [f[0]] else []))
  }

  /** What `getDeviceIds` returns for the lines of `adb devices`, each
      line split by `str.split()` after `strip()` (which changes nothing
      for `split()`). */
  function DeviceIds(ids: seq<string>): Result<seq<string>> {
    DeviceIdsOf(DeviceLines(ids), Fields)
  }

  /** `getDeviceIds`. */
  method GetDeviceIds(ids: seq<string>) returns (r: Result<seq<string>>)
    ensures r == DeviceIds(ids)
  {
    r := CollectDeviceIds(ids, Fields);
  }

  /** The loop of `getDeviceIds` over lines 1 to len - 2, appending the id
      of every line in state `device`, with `split` splitting a line. */
  method CollectDeviceIds(ids: seq<string>, split: string -> seq<string>) returns (r: Result<seq<string>>)
    ensures r == DeviceIdsOf(DeviceLines(ids), split)
  {
    var deviceIds: seq<string> := [];
    if |ids| < 2 {
      return Ok(deviceIds);
    }
    ghost var body := DeviceLines(ids);
    for j := 0 to |ids| - 2
      invariant DeviceIdsOf(body[..j], split) == Ok(deviceIds)
    {
      assert ids[j + 1] == body[j];
      var f := split(ids[j + 1]);
      if |f| != 2 {
        DeviceIdsFail(body, j, split);
        return Err(ValueError);
      }
      var id, state := f[0], f[1];
      DeviceIdsNext(body, j, split, deviceIds);
      deviceIds := deviceIds + (if state == "device" then [id] else []);
    }
    assert body[..|ids| - 2] == body;
    r := Ok(deviceIds);
  }

  /** One more well-formed line extends the ids read so far. */
  lemma DeviceIdsNext(lines: seq<string>, i: nat, split: string -> seq<string>, acc: seq<string>)
    requires i < |lines| && DeviceIdsOf(lines[..i], split) == Ok(acc) && |split(lines[i])| == 2
    ensures DeviceIdsOf(lines[..i + 1], split)
      == Ok(acc + (if split(lines[i])[1] == "device" then [split(lines[i])[0]] else []))
  {
    assert lines[..i + 1][..i] == lines[..i];
  }

  /** A malformed line after a well-formed prefix makes the whole read fail. */
  lemma {:induction false} DeviceIdsFail(lines: seq<string>, i: nat, split: string -> seq<string>)
    requires i < |lines| && DeviceIdsOf(lines[..i], split).Ok? && |split(lines[i])| != 2
    ensures DeviceIdsOf(lines, split) == Err(ValueError)
    decreases |lines|
  {
    if i < |lines| - 1 {
      var init := lines[..|lines| - 1];
      assert init[..i] == lines[..i];
      DeviceIdsFail(init, i, split);
    } else {
      assert lines[..i] == lines[..|lines| - 1];
    }
  }

  /** The read fails exactly when some line does not hold exactly two
      fields, and then with ValueError. */
  lemma {:induction false} DeviceIdsErrors(lines: seq<string>, split: string -> seq<string>)
    ensures DeviceIdsOf(lines, split).Err? <==> exists k :: 0 <= k < |lines| && |split(lines[k])| != 2
    ensures DeviceIdsOf(lines, split).Err? ==> DeviceIdsOf(lines, split).error == ValueError
  {
    if lines != [] {
      var init := lines[..|lines| - 1];
      DeviceIdsErrors(init, split);
      if exists k :: 0 <= k < |init| && |split(init[k])| != 2 {
        var k :| 0 <= k < |init| && |split(init[k])| != 2;
        assert lines[k] == init[k];
      }
      if exists k :: 0 <= k < |lines| && |split(lines[k])| != 2 {
        var k :| 0 <= k < |lines| && |split(lines[k])| != 2;
        if k < |init| {
          assert init[k] == lines[k];
        }
      }
    }
  }

  /** When the read succeeds, an id is returned exactly when some line
      reads as that id in state `device`. */
  lemma {:induction false} DeviceIdsMembers(lines: seq<string>, split: string -> seq<string>, id: string)
    requires DeviceIdsOf(lines, split).Ok?
    ensures id in DeviceIdsOf(lines, split).value <==>
      exists k :: 0 <= k < |lines| && split(lines[k]) == [id, "device"]
  {
    if lines != [] {
      var init := lines[..|lines| - 1];
      var f := split(lines[|lines| - 1]);
      DeviceIdsMembers(init, split, id);
      if exists k :: 0 <= k < |init| && split(init[k]) == [id, "device"] {
        var k :| 0 <= k < |init| && split(init[k]) == [id, "device"];
        assert lines[k] == init[k];
      }
      if exists k :: 0 <= k < |lines| && split(lines[k]) == [id, "device"] {
        var k :| 0 <= k < |lines| && split(lines[k]) == [id, "device"];
        if k < |init| {
          assert init[k] == lines[k];
        }
      }
      assert f == [f[0], f[1]];
    }
  }

  // ---------------------------------------------------------------------
  // getPid
  // ---------------------------------------------------------------------

  /** `str.count(c)` for a single character. */
  function Count(s: string, c: char): nat {
    if s == [] then 0 else Count(s[..|s| - 1], c) + (if s[|s| - 1] == c then 1 else 0)
  }

  lemma {:induction false} CountConcat(a: string, b: string, c: char)
    ensures Count(a + b, c) == Count(a, c) + Count(b, c)
  {
    if b != [] {
      var init := b[..|b| - 1];
      CountConcat(a, init, c);
      assert (a + b)[..|a + b| - 1] == a + init;
      assert (a + b)[|a + b| - 1] == b[|b| - 1];
      assert Count(a + b, c) == Count(a + init, c) + (if b[|b| - 1] == c then 1 else 0);
      assert Count(b, c) == Count(init, c) + (if b[|b| - 1] == c then 1 else 0);
    } else {
      assert a + b == a;
    }
  }

  lemma {:induction false} CountZero(s: string, c: char)
    ensures Count(s, c) == 0 <==> c !in s
  {
    if s != [] {
      CountZero(s[..|s| - 1], c);
      assert s == s[..|s| - 1] + [s[|s| - 1]];
    }
  }

  /** The column of `ps` output holding the process name: the ninth on SDK
      versions below 26 (plain `ps`), the eighth otherwise (`ps -ef`). An
      empty version string takes the second branch without parsing; a
      version `int()` refuses is a ValueError. */
  function NameColumn(sdk: string): (r: Result<nat>)
    ensures r.Ok? ==> r.value == 7 || r.value == 8
    ensures r == Ok(8) <==> sdk != [] && PyInt(sdk).Ok? && PyInt(sdk).value < 26
    ensures r.Err? <==> sdk != [] && PyInt(sdk).Err?
  {
    if sdk == [] then Ok(7)
    else
      var v := PyInt(sdk);
      if v.Err? then Err(v.error) else Ok(if v.value < 26 then 8 else 7)
  }

  /** One entry of the process list: `pid:name` from the second field and
      the name column; a line with too few fields is an IndexError. */
  function Entry(line: string, col: nat, split: string -> seq<string>): Result<string>
    requires col >= 1
  {
    var f := split(line);
    if |f| <= col then Err(IndexError) else Ok(f[1] + ":" + f[col])
  }

  /** The list comprehension over the `ps` lines. */
  function Entries(lines: seq<string>, col: nat, split: string -> seq<string>): Result<seq<string>>
    requires col >= 1
  {
    if lines == [] then Ok([])
    else
      var a := Entries(lines[..|lines| - 1], col, split);
      var e := Entry(lines[|lines| - 1], col, split);
      if a.Err? then a
      else if e.Err? then Err(e.error)
      else Ok(a.value + [e.value])
  }

  /** The comprehension fails exactly when a line is too short, and
      otherwise holds one `pid:name` entry per line, in line order. */
  lemma {:induction false} EntriesMeaning(lines: seq<string>, col: nat, split: string -> seq<string>)
    requires col >= 1
    ensures Entries(lines, col, split).Err? <==> exists k :: 0 <= k < |lines| && |split(lines[k])| <= col
    ensures Entries(lines, col, split).Ok? ==> (|Entries(lines, col, split).value| == |lines|
      && forall k :: 0 <= k < |lines| ==>
        Entries(lines, col, split).value[k] == split(lines[k])[1] + ":" + split(lines[k])[col])
  {
    if lines != [] {
      var init := lines[..|lines| - 1];
      EntriesMeaning(init, col, split);
      if exists k :: 0 <= k < |init| && |split(init[k])| <= col {
        var k :| 0 <= k < |init| && |split(init[k])| <= col;
        assert lines[k] == init[k];
      }
      if exists k :: 0 <= k < |lines| && |split(lines[k])| <= col {
        var k :| 0 <= k < |lines| && |split(lines[k])| <= col;
        if k < |init| {
          assert init[k] == lines[k];
        }
      }
      if Entries(lines, col, split).Ok? {
        forall k | 0 <= k < |lines|
          ensures Entries(lines, col, split).value[k] == split(lines[k])[1] + ":" + split(lines[k])[col]
        {
          if k < |init| {
            assert init[k] == lines[k];
          }
        }
      }
    }
  }

  /** An entry holds exactly one ':' exactly when neither its pid nor its
      name holds one. */
  lemma EntrySingleColon(pid: string, name: string)
    ensures Count(pid + ":" + name, ':') == 1 <==> ':' !in pid && ':' !in name
  {
    CountConcat(pid, ":", ':');
    CountConcat(pid + ":", name, ':');
    assert Count(":", ':') == 1 by {
      assert ":"[..0] == [];
    }
    CountZero(pid, ':');
    CountZero(name, ':');
  }

  /** Entry `i` is the first holding exactly one ':'. */
  predicate IsFirstSingle(l: seq<string>, i: int) {
    0 <= i < |l| && Count(l[i], ':') == 1 && forall j :: 0 <= j < i ==> Count(l[j], ':') != 1
  }

  /** The index of the first entry with exactly one ':', if any. */
  function FirstSingle(l: seq<string>): (r: Option<nat>)
    ensures r.Some? ==> IsFirstSingle(l, r.value)
    ensures r.None? ==> forall j :: 0 <= j < |l| ==> Count(l[j], ':') != 1
  {
    if l == [] then None
    else
      var r := FirstSingle(l[..|l| - 1]);
      assert forall j :: 0 <= j < |l| - 1 ==> l[..|l| - 1][j] == l[j];
      if r.Some? then r
      else if Count(l[|l| - 1], ':') == 1 then Some(|l| - 1)
      else None
  }

  /** `list.index(x)`: the first position holding `x`. */
  function IndexOf(l: seq<string>, x: string): (r: nat)
    requires x in l
    ensures r < |l| && l[r] == x && forall j :: 0 <= j < r ==> l[j] != x
  {
    if l[0] == x then 0 else 1 + IndexOf(l[1..], x)
  }

  /** The reordered list: the first entry with exactly one ':' (the main
      process, whose name has no ':' suffix) moved to the front. */
  function MoveFront(l: seq<string>): seq<string> {
    match FirstSingle(l)
    case None => l
    case Some(i) => [l[i]] + l[..i] + l[i + 1..]
  }

  /** The reordering loop of `getPid`: at the first entry with exactly one
      ':', look its value up with `index`, pop it there and insert it at
      the front, then stop. */
  method MoveToFront(list: seq<string>) returns (processList: seq<string>)
    ensures processList == MoveFront(list)
  {
    processList := list;
    for i := 0 to |processList|
      invariant processList == list
      invariant forall j :: 0 <= j < i ==> Count(list[j], ':') != 1
    {
      if Count(processList[i], ':') == 1 {
        assert IsFirstSingle(list, i);
        IndexOfFirstSingle(list, i);
        var index := IndexOf(processList, processList[i]);
        var item := processList[index];
        processList := processList[..index] + processList[index + 1..];
        processList := [item] + processList;
        FirstSingleIs(list, i);
        return;
      }
    }
    MoveFrontNoSingle(list);
  }

  /** The first entry with one ':' is pinned down by its property. */
  lemma FirstSingleIs(l: seq<string>, i: nat)
    requires IsFirstSingle(l, i)
    ensures FirstSingle(l) == Some(i)
  {
  }

  /** `index` finds the entry the loop stands on: an equal entry earlier
      would itself hold one ':' and have stopped the loop. */
  lemma IndexOfFirstSingle(l: seq<string>, i: nat)
    requires IsFirstSingle(l, i)
    ensures IndexOf(l, l[i]) == i
  {
    var r := IndexOf(l, l[i]);
    assert Count(l[r], ':') == 1;
  }

  /** The reordering is a permutation of the built list. */
  lemma MoveFrontPermutes(l: seq<string>)
    ensures |MoveFront(l)| == |l| && multiset(MoveFront(l)) == multiset(l)
  {
    var r := FirstSingle(l);
    if r.Some? {
      var i := r.value;
      assert l == l[..i] + [l[i]] + l[i + 1..];
    }
  }

  /** With a main-process entry at `i`, it comes first, the entries before
      it move one place back, and the entries after it keep their places;
      with none, the list is unchanged. */
  lemma MoveFrontPlaces(l: seq<string>, i: nat)
    requires IsFirstSingle(l, i)
    ensures |MoveFront(l)| == |l| && MoveFront(l)[0] == l[i]
    ensures forall k :: 0 <= k < i ==> MoveFront(l)[k + 1] == l[k]
    ensures forall k :: i < k < |l| ==> MoveFront(l)[k] == l[k]
  {
    FirstSingleIs(l, i);
    var m := MoveFront(l);
    assert m == [l[i]] + l[..i] + l[i + 1..];
    forall k | i < k < |l| ensures m[k] == l[k] {
      assert m[k] == l[i + 1..][k - i - 1];
    }
  }

  lemma MoveFrontNoSingle(l: seq<string>)
    requires forall j :: 0 <= j < |l| ==> Count(l[j], ':') != 1
    ensures MoveFront(l) == l
  {
  }

  /** Reordering twice changes nothing more: the moved entry is already the
      first with one ':'. */
  lemma MoveFrontIdempotent(l: seq<string>)
    ensures MoveFront(MoveFront(l)) == MoveFront(l)
  {
    var r := FirstSingle(l);
    if r.Some? {
      var m := MoveFront(l);
      assert m[0] == l[r.value];
      assert IsFirstSingle(m, 0);
      FirstSingleIs(m, 0);
      assert m == [m[0]] + m[..0] + m[1..];
    }
  }

  /** `getPid` on the SDK version string and the filtered `ps` lines: the
      reordered list, or the empty list when anything raises. */
  function PidList(sdk: string, lines: seq<string>): seq<string> {
    var col := NameColumn(sdk);
    if col.Err? then []
    else
      var e := Entries(lines, col.value, Fields);
      if e.Err? then [] else MoveFront(e.value)
  }

  /** `getPid`: choose the column by SDK version, build the list, reorder
      it; any exception gives the empty list. */
  method GetPid(sdk: string, lines: seq<string>) returns (processList: seq<string>)
    ensures processList == PidList(sdk, lines)
  {
    var col := 7;
    if sdk != [] {
      var version := PyInt(sdk);
      if version.Err? {
        return [];
      }
      if version.value < 26 {
        col := 8;
      }
    }
    var built := Entries(lines, col, Fields);
    if built.Err? {
      return [];
    }
    processList := MoveToFront(built.value);
  }

  /** A pid list is empty when the version does not parse or a line is
      too short, and otherwise holds one entry per `ps` line. */
  lemma PidListShape(sdk: string, lines: seq<string>)
    ensures NameColumn(sdk).Err? ==> PidList(sdk, lines) == []
    ensures NameColumn(sdk).Ok? && Entries(lines, NameColumn(sdk).value, Fields).Err? ==> PidList(sdk, lines) == []
    ensures NameColumn(sdk).Ok? && Entries(lines, NameColumn(sdk).value, Fields).Ok? ==>
      multiset(PidList(sdk, lines)) == multiset(Entries(lines, NameColumn(sdk).value, Fields).value)
      && |PidList(sdk, lines)| == |lines|
  {
    var col := NameColumn(sdk);
    if col.Ok? {
      EntriesMeaning(lines, col.value, Fields);
      var e := Entries(lines, col.value, Fields);
      if e.Ok? {
        MoveFrontPermutes(e.value);
      }
    }
  }

  // ---------------------------------------------------------------------
  // checkPkgname
  // ---------------------------------------------------------------------

  /** The package-name fragments that mark a package to hide. */
  const REPLACE_LIST: seq<string> := ["com.google"]

  /** No fragment of the list occurs in the name. */
  predicate Allowed(pkgname: string) {
    forall k :: 0 <= k < |REPLACE_LIST| ==> !Contains(pkgname, REPLACE_LIST[k])
  }

  /** `checkPkgname`: the flag starts true and is cleared by any fragment
      found in the name. */
  method CheckPkgname(pkgname: string) returns (flag: bool)
    ensures flag == Allowed(pkgname)
  {
    flag := true;
    for i := 0 to |REPLACE_LIST|
      invariant flag <==> forall k :: 0 <= k < i ==> !Contains(pkgname, REPLACE_LIST[k])
    {
      if Contains(pkgname, REPLACE_LIST[i]) {
        flag := false;
      }
    }
  }

  /** A name is refused exactly when "com.google" occurs in it somewhere. */
  lemma AllowedIff(pkgname: string)
    ensures !Allowed(pkgname) <==> exists k :: OccursAt(pkgname, "com.google", k)
  {
    assert |REPLACE_LIST| == 1 && REPLACE_LIST[0] == "com.google";
    if exists k :: OccursAt(pkgname, "com.google", k) {
      var k :| OccursAt(pkgname, "com.google", k);
      assert Find(pkgname, "com.google") >= 0;
    }
    if !Allowed(pkgname) {
      assert OccursAt(pkgname, "com.google", Find(pkgname, "com.google"));
    }
  }
}

/** The arithmetic of the Android performance probes: CPU tick counts read
    from `/proc/<pid>/stat` and `/proc/stat`, the number of cores, the CPU
    rates computed from two readings, and the memory totals found in
    `dumpsys meminfo` output. The shell output is an input string. */
module Apm {
  import opened Wrappers
  import opened Text

  /** `float(tok)` on the unsigned integral texts `/proc` and `dumpsys`
      print: a non-empty run of decimal digits; anything else is refused. */
  function Num(tok: string): (r: Result<int>)
    ensures r.Ok? <==> |tok| > 0 && AllDigits(tok)
    ensures r.Ok? ==> r.value >= 0
  {
    if |tok| > 0 && AllDigits(tok) then Ok(DecValue(tok)) else Err(ValueError)
  }

  // ---------------------------------------------------------------------
  // getprocessCpuStat: re.split(r"\s+", line)

  /** The first character after a maximal leading word is a space. */
  lemma TakeWordStops(s: string)
    ensures |TakeWord(s)| < |s| ==> IsSpace(s[|TakeWord(s)|])
    decreases |s|
  {
    if s != [] && !IsSpace(s[0]) {
      TakeWordStops(s[1..]);
    }
  }

  /** `re.split(r"\s+", s)`: the pieces between maximal whitespace runs,
      with an empty first piece for leading and an empty last piece for
      trailing whitespace. */
  function WsSplit(s: string): (r: seq<string>)
    ensures |r| >= 1
    decreases |s|
  {
    var w := TakeWord(s);
    if |w| == |s| then [s]
    else [w] + WsSplit(DropSpace(s[|w|..]))
  }

  /** A non-empty token without whitespace. */
  predicate Word(w: string) {
    |w| > 0 && forall j :: 0 <= j < |w| ==> !IsSpace(w[j])
  }

  /** A word followed by a space (or nothing) is taken whole. */
  lemma {:induction false} TakeWordOf(w: string, rest: string)
    requires forall i :: 0 <= i < |w| ==> !IsSpace(w[i])
    requires rest == [] || IsSpace(rest[0])
    ensures TakeWord(w + rest) == w
    decreases |w|
  {
    if w != [] {
      assert (w + rest)[1..] == w[1..] + rest;
      TakeWordOf(w[1..], rest);
    } else {
      assert w + rest == rest;
    }
  }

  /** A single word is one piece. */
  lemma WsSplitWord(w: string)
    requires Word(w)
    ensures WsSplit(w) == [w]
  {
    TakeWordOf(w, []);
    assert w + [] == w;
  }

  /** A word, a space, then text starting with a word: the word is the
      first piece and the split goes on with the text. */
  lemma WsSplitCons(w: string, rest: string)
    requires Word(w) && |rest| > 0 && !IsSpace(rest[0])
    ensures WsSplit(w + " " + rest) == [w] + WsSplit(rest)
  {
    var s := w + " " + rest;
    assert s == w + (" " + rest);
    TakeWordOf(w, " " + rest);
    assert s[|w|..] == " " + rest;
    assert (" " + rest)[1..] == rest;
    assert DropSpace(rest) == rest;
    assert DropSpace(" " + rest) == DropSpace(rest);
    assert WsSplit(s) == [w] + WsSplit(DropSpace(s[|w|..]));
  }

  /** Words joined by single spaces split back into the same words. */
  lemma {:induction false} WsSplitJoin(ws: seq<string>)
    requires |ws| > 0
    requires forall i :: 0 <= i < |ws| ==> Word(ws[i])
    ensures WsSplit(Join(ws, " ")) == ws
    decreases |ws|
  {
    if |ws| == 1 {
      WsSplitWord(ws[0]);
    } else {
      var tail := ws[1..];
      var rest := Join(tail, " ");
      WsSplitJoin(tail);
      JoinCons(ws, " ");
      assert Word(tail[0]);
      JoinHead(tail, " ");
      WsSplitCons(ws[0], rest);
      assert ws == [ws[0]] + tail;
    }
  }

  lemma JoinCons(ws: seq<string>, sep: string)
    requires |ws| > 1
    ensures Join(ws, sep) == ws[0] + sep + Join(ws[1..], sep)
  {
  }

  lemma JoinHead(ws: seq<string>, sep: string)
    requires |ws| > 0 && |ws[0]| > 0
    ensures |Join(ws, sep)| > 0 && Join(ws, sep)[0] == ws[0][0]
  {
  }

  /** `getprocessCpuStat`: the utime, stime, cutime and cstime fields
      (tokens 13 to 16) of the stat line added up; a short line is an
      IndexError and a token that is not a number a ValueError. */
  function ProcessTicks(stat: string): (r: Result<int>)
    ensures r.Err? ==> r.error in {IndexError, ValueError}
  {
    TicksOf(WsSplit(stat))
  }

  /** `float(toks[i])`: a missing token is an IndexError, one that is not
      a number a ValueError. */
  function TokenAt(toks: seq<string>, i: nat): (r: Result<int>)
    ensures r.Err? <==> i >= |toks| || Num(toks[i]).Err?
    ensures r.Err? ==> r.error == (if i >= |toks| then IndexError else ValueError)
  {
    if i < |toks| then Num(toks[i]) else Err(IndexError)
  }

  /** The four conversions in the order the sum evaluates them. */
  function TicksOf(toks: seq<string>): (r: Result<int>)
    ensures r.Err? ==> r.error in {IndexError, ValueError}
  {
    var a :- TokenAt(toks, 13);
    var b :- TokenAt(toks, 14);
    var c :- TokenAt(toks, 15);
    var d :- TokenAt(toks, 16);
    Ok(a + b + c + d)
  }

  /** The reading fails with the error of the first of tokens 13 to 16 that
      is missing or not a number: a line of 14 to 16 tokens whose token 13
      is not a number is a ValueError, not an IndexError. */
  lemma TicksOfFirstFailure(toks: seq<string>, k: nat)
    requires 13 <= k < 17 && TokenAt(toks, k).Err?
    requires forall j :: 13 <= j < k ==> TokenAt(toks, j).Ok?
    ensures TicksOf(toks) == Err(TokenAt(toks, k).error)
  {
    if k > 13 { assert TokenAt(toks, 13).Ok?; }
    if k > 14 { assert TokenAt(toks, 14).Ok?; }
    if k > 15 { assert TokenAt(toks, 15).Ok?; }
  }

  /** A stat line of space-separated fields yields the sum of fields 13 to
      16, whatever the other fields hold. */
  lemma ProcessTicksOfFields(ws: seq<string>)
    requires |ws| >= 17
    requires forall i :: 0 <= i < |ws| ==> Word(ws[i])
    requires forall i :: 13 <= i < 17 ==> AllDigits(ws[i])
    ensures ProcessTicks(Join(ws, " ")) == Ok(DecValue(ws[13]) + DecValue(ws[14]) + DecValue(ws[15]) + DecValue(ws[16]))
  {
    WsSplitJoin(ws);
    assert Word(ws[13]) && Word(ws[14]) && Word(ws[15]) && Word(ws[16]);
    TicksOfDigits(ws);
  }

  lemma TicksOfDigits(toks: seq<string>)
    requires |toks| >= 17
    requires forall i :: 13 <= i < 17 ==> |toks[i]| > 0 && AllDigits(toks[i])
    ensures TicksOf(toks) == Ok(DecValue(toks[13]) + DecValue(toks[14]) + DecValue(toks[15]) + DecValue(toks[16]))
  {
    var a, b, c, d := toks[13], toks[14], toks[15], toks[16];
    assert Num(a) == Ok(DecValue(a));
    assert Num(b) == Ok(DecValue(b));
    assert Num(c) == Ok(DecValue(c));
    assert Num(d) == Ok(DecValue(d));
  }

  /** Leading whitespace shifts the fields by one: token 13 is then the
      thirteenth field, not the fourteenth. */
  lemma LeadingSpaceShifts(s: string)
    requires |s| > 0 && IsSpace(s[0])
    ensures WsSplit(s)[0] == []
  {
  }

  // ---------------------------------------------------------------------
  // getTotalCpuStat / getIdleCpuStat

  /** The guarded `toks.pop(1)`: drops a second token that is empty or a
      single space. */
  function PopBlank(toks: seq<string>): (r: seq<string>)
    requires |toks| >= 2
  {
    if toks[1] == "" || toks[1] == " " then toks[..1] + toks[2..] else toks
  }

  /** `str.split()` never yields an empty or blank token, so the pop never
      happens. */
  lemma PopIsDead(line: string)
    requires |Fields(line)| >= 2
    ensures PopBlank(Fields(line)) == Fields(line)
  {
    var f := Fields(line);
    FieldsStartWithWord(line);
    assert f[1] != "" && f[1] != " " by {
      assert |f[1]| > 0 && !IsSpace(f[1][0]);
    }
  }

  /** The running sum of fields 1 to n-1 of one line, as the inner loop
      adds them: a missing field is an IndexError, a non-number a ValueError. */
  function SumTo(toks: seq<string>, n: nat): (r: Result<int>)
    requires n >= 1
    ensures r.Err? ==> r.error in {IndexError, ValueError}
  {
    if n == 1 then Ok(0)
    else
      var a :- SumTo(toks, n - 1);
      if n - 1 >= |toks| then Err(IndexError)
      else
        var v :- Num(toks[n - 1]);
        Ok(a + v)
  }

  /** The end of the summed field range: fields 1 to 7 (user, nice,
      system, idle, iowait, irq, softirq) make up a line's total. */
  const FIELDS_END: nat := 8

  function LineTotal(line: string): Result<int> {
    var toks := Fields(line);
    if |toks| < 2 then Err(IndexError)
    else SumTo(PopBlank(toks), FIELDS_END)
  }

  /** A line's contribution to the idle ticks: field 4. */
  function LineIdle(line: string): Result<int> {
    var toks := Fields(line);
    if |toks| < 2 then Err(IndexError)
    else
      var t := PopBlank(toks);
      if |t| < 5 then Err(IndexError) else Num(t[4])
  }

  /** A line's busy ticks: the six non-idle fields of the seven. */
  function LineBusy(line: string): Result<int> {
    var toks := Fields(line);
    if |toks| < 8 then Err(IndexError)
    else
      var user :- Num(toks[1]);
      var nice :- Num(toks[2]);
      var system :- Num(toks[3]);
      var iowait :- Num(toks[5]);
      var irq :- Num(toks[6]);
      var softirq :- Num(toks[7]);
      Ok(user + nice + system + iowait + irq + softirq)
  }

  /** The lines' contributions added up in order; the first failing line's
      error escapes. */
  function SumLines(lines: seq<string>, f: string -> Result<int>): Result<int> {
    if lines == [] then Ok(0)
    else
      var a := SumLines(lines[..|lines| - 1], f);
      var b := f(lines[|lines| - 1]);
      if a.Err? then a
      else if b.Err? then b
      else Ok(a.value + b.value)
  }

  function Lines(out: string): seq<string> {
    Split(out, "\n")
  }

  lemma {:induction false} SumToErrorPersists(toks: seq<string>, n: nat, m: nat)
    requires 1 <= n <= m && SumTo(toks, n).Err?
    ensures SumTo(toks, m) == SumTo(toks, n)
    decreases m
  {
    if m > n {
      SumToErrorPersists(toks, n, m - 1);
    }
  }

  lemma {:induction false} SumLinesErrorPersists(lines: seq<string>, n: nat, f: string -> Result<int>)
    requires n <= |lines| && SumLines(lines[..n], f).Err?
    ensures SumLines(lines, f) == SumLines(lines[..n], f)
    decreases |lines|
  {
    if n < |lines| {
      var init := lines[..|lines| - 1];
      assert init[..n] == lines[..n];
      SumLinesErrorPersists(init, n, f);
    } else {
      assert lines[..n] == lines;
    }
  }

  /** One more line that reads adds its value to the running sum. */
  lemma SumLinesNext(lines: seq<string>, i: nat, f: string -> Result<int>, acc: int, v: Result<int>)
    requires i < |lines| && SumLines(lines[..i], f) == Ok(acc) && v == f(lines[i]) && v.Ok?
    ensures SumLines(lines[..i + 1], f) == Ok(acc + v.value)
  {
    assert lines[..i + 1][..i] == lines[..i];
  }

  /** The first line that fails is where the whole reading fails. */
  lemma SumLinesFail(lines: seq<string>, i: nat, f: string -> Result<int>)
    requires i < |lines| && SumLines(lines[..i], f).Ok? && f(lines[i]).Err?
    ensures SumLines(lines, f) == Err(f(lines[i]).error)
  {
    assert lines[..i + 1][..i] == lines[..i];
    SumLinesErrorPersists(lines, i + 1, f);
  }

  /** The loop over the lines of `getIdleCpuStat`: each line's reading
      added to the running sum, the first line that raises ending the whole
      reading with its error. */
  method SumEachLine(lines: seq<string>, f: string -> Result<int>) returns (r: Result<int>)
    ensures r == SumLines(lines, f)
  {
    var sum := 0;
    for li := 0 to |lines|
      invariant SumLines(lines[..li], f) == Ok(sum)
    {
      var v := f(lines[li]);
      if v.Err? {
        SumLinesFail(lines, li, f);
        return Err(v.error);
      }
      SumLinesNext(lines, li, f, sum, v);
      sum := sum + v.value;
    }
    assert lines[..|lines|] == lines;
    r := Ok(sum);
  }

  /** `getTotalCpuStat`: every line's fields 1 to 7 added to one running
      total, line by line. */
  method TotalCpuStat(result: string) returns (r: Result<int>)
    ensures r == SumLines(Lines(result), LineTotal)
  {
    var lines := Split(result, "\n");
    var total := 0;
    for li := 0 to |lines|
      invariant SumLines(lines[..li], LineTotal) == Ok(total)
    {
      var t := AddLine(lines[li], total);
      if t.Err? {
        SumLinesFail(lines, li, LineTotal);
        return t;
      }
      SumLinesNext(lines, li, LineTotal, total, LineTotal(lines[li]));
      total := t.value;
    }
    assert lines[..|lines|] == lines;
    r := Ok(total);
  }

  /** One pass of `getTotalCpuStat`'s outer loop: the line split into
      fields, a blank field 1 popped, and fields 1 to 7 added to the running
      total; a line without field 1 is an IndexError. */
  method AddLine(line: string, totalCpu: int) returns (r: Result<int>)
    ensures LineTotal(line).Err? ==> r == Err(LineTotal(line).error)
    ensures LineTotal(line).Ok? ==> r == Ok(totalCpu + LineTotal(line).value)
  {
    var toks := Fields(line);
    if |toks| < 2 {
      return Err(IndexError);
    }
    r := AddFields(PopBlank(toks), totalCpu);
  }

  /** The inner loop of `getTotalCpuStat`: fields 1 to 7 of one line added
      to the running total, stopping at the first missing or malformed
      field. */
  method AddFields(toks: seq<string>, totalCpu: int) returns (r: Result<int>)
    ensures SumTo(toks, FIELDS_END).Err? ==> r == Err(SumTo(toks, FIELDS_END).error)
    ensures SumTo(toks, FIELDS_END).Ok? ==> r == Ok(totalCpu + SumTo(toks, FIELDS_END).value)
  {
    var total := totalCpu;
    for i := 1 to FIELDS_END
      invariant SumTo(toks, i) == Ok(total - totalCpu)
    {
      if i >= |toks| {
        SumToErrorPersists(toks, i + 1, FIELDS_END);
        return Err(IndexError);
      }
      var v := Num(toks[i]);
      if v.Err? {
        SumToErrorPersists(toks, i + 1, FIELDS_END);
        return Err(ValueError);
      }
      total := total + v.value;
    }
    r := Ok(total);
  }

  /** `getIdleCpuStat`: every line's field 4 added up. */
  method IdleCpuStat(result: string) returns (r: Result<int>)
    ensures r == SumLines(Lines(result), LineIdle)
  {
    var lines := Split(result, "\n");
    r := SumEachLine(lines, LineIdle);
  }

  /** An empty line (a trailing newline, say) has no field 1: the whole
      reading fails with an IndexError once it is reached. */
  lemma EmptyLineFails(line: string)
    requires Fields(line) == []
    ensures LineTotal(line) == Err(IndexError) && LineIdle(line) == Err(IndexError)
  {
  }

  /** Within a line, the total is the idle field plus the busy fields. */
  lemma LineTotalSplits(line: string)
    requires LineTotal(line).Ok?
    ensures LineIdle(line).Ok? && LineBusy(line).Ok?
    ensures LineTotal(line).value == LineIdle(line).value + LineBusy(line).value
  {
    var toks := Fields(line);
    PopIsDead(line);
    assert SumTo(toks, 8).Ok?;
    assert |toks| >= 8 by {
      if |toks| < 8 {
        SumToShort(toks, 8);
      }
    }
    SumToValue(toks);
  }

  lemma SumToShort(toks: seq<string>, n: nat)
    requires 1 <= |toks| < n
    ensures SumTo(toks, n).Err?
    decreases n
  {
    if n - 1 > |toks| {
      SumToShort(toks, n - 1);
    }
  }

  lemma SumToValue(toks: seq<string>)
    requires |toks| >= 8 && SumTo(toks, 8).Ok?
    ensures forall k :: 1 <= k < 8 ==> Num(toks[k]).Ok?
    ensures SumTo(toks, 8).value == Num(toks[1]).value + Num(toks[2]).value + Num(toks[3]).value
      + Num(toks[4]).value + Num(toks[5]).value + Num(toks[6]).value + Num(toks[7]).value
  {
    SumToStep(toks, 8);
    SumToStep(toks, 7);
    SumToStep(toks, 6);
    SumToStep(toks, 5);
    SumToStep(toks, 4);
    SumToStep(toks, 3);
    SumToStep(toks, 2);
  }

  /** A successful running sum is the previous one plus the next field. */
  lemma SumToStep(toks: seq<string>, n: nat)
    requires n >= 2 && SumTo(toks, n).Ok?
    ensures SumTo(toks, n - 1).Ok? && n - 1 < |toks| && Num(toks[n - 1]).Ok?
    ensures SumTo(toks, n).value == SumTo(toks, n - 1).value + Num(toks[n - 1]).value
  {
  }

  /** Over a whole reading: when the total is read, so are the idle and
      busy ticks, and total = idle + busy. So total - idle, the quantity
      behind the system rate, counts exactly the busy ticks. */
  lemma {:induction false} TotalIsIdlePlusBusy(lines: seq<string>)
    requires SumLines(lines, LineTotal).Ok?
    ensures SumLines(lines, LineIdle).Ok? && SumLines(lines, LineBusy).Ok?
    ensures SumLines(lines, LineTotal).value == SumLines(lines, LineIdle).value + SumLines(lines, LineBusy).value
    decreases |lines|
  {
    if lines != [] {
      var init := lines[..|lines| - 1];
      TotalIsIdlePlusBusy(init);
      LineTotalSplits(lines[|lines| - 1]);
    }
  }

  // ---------------------------------------------------------------------
  // getCpuCores

  /** `getCpuCores`: the number after the first '-' of the online range,
      plus one; 1 when there is no '-' or the text after it is not a
      number. */
  function CpuCores(online: string): int {
    var parts := Split(online, "-");
    if |parts| < 2 then 1
    else
      match PyInt(parts[1])
      case Ok(v) => v + 1
      case Err(_) => 1
  }

  /** No '-' at all: one core. */
  lemma CpuCoresWithoutRange(online: string)
    requires '-' !in online
    ensures CpuCores(online) == 1
  {
    forall k | 0 <= k <= |online| ensures !OccursAt(online, "-", k) {
      if k < |online| {
        assert online[k..k + 1][0] == online[k];
      }
    }
    SplitWithoutSeparator(online, "-");
  }

  /** The text after the first '-', stripped, holds no '-' and only
      characters of the online list. */
  lemma RangeEndChars(online: string)
    requires |Split(online, "-")| >= 2
    ensures forall k :: 0 <= k < |Strip(Split(online, "-")[1])| ==>
      Strip(Split(online, "-")[1])[k] != '-' && Strip(Split(online, "-")[1])[k] in online
  {
    var p := Split(online, "-")[1];
    SplitPieces(online, "-");
    StripKeeps(p);
    forall k | 0 <= k < |Strip(p)| ensures Strip(p)[k] != '-' && Strip(p)[k] in online {
      var j :| 0 <= j < |p| && p[j] == Strip(p)[k];
      assert p[j] in online && p[j] != "-"[0];
    }
  }

  /** The count is never below one: the text after a '-' holds no '-',
      so it never reads as a negative number. */
  lemma CpuCoresAtLeastOne(online: string)
    ensures CpuCores(online) >= 1
  {
    var parts := Split(online, "-");
    if |parts| >= 2 {
      RangeEndChars(online);
      var t := Strip(parts[1]);
      assert |t| > 0 ==> t[0] != '-';
    }
  }

  /** Text without any digit counts as one core. */
  lemma CpuCoresWithoutDigits(online: string)
    requires forall i :: 0 <= i < |online| ==> !IsDigit(online[i])
    ensures CpuCores(online) == 1
  {
    var parts := Split(online, "-");
    if |parts| >= 2 {
      RangeEndChars(online);
      var t := Strip(parts[1]);
      forall k | 0 <= k < |t| ensures !IsDigit(t[k]) {
        assert t[k] in online;
      }
      assert PyInt(parts[1]).Err?;
    }
  }

  /** A range `a-b` of CPU numbers reads back as b + 1 cores. */
  lemma CpuCoresOfRange(a: nat, b: nat)
    ensures CpuCores(DigitsOf(a) + "-" + DigitsOf(b)) == b + 1
  {
    var da, db := DigitsOf(a), DigitsOf(b);
    SplitAtOnlyDash(da, db);
    PyIntRoundTrip(b);
    assert IntToString(b) == db;
  }

  /** Two digit strings joined by '-' split back into the two. */
  lemma SplitAtOnlyDash(x: string, y: string)
    requires AllDigits(x) && AllDigits(y)
    ensures Split(x + "-" + y, "-") == [x, y]
  {
    var s := x + "-" + y;
    assert s[|x|..|x| + 1] == "-";
    forall k | 0 <= k < |x| ensures !OccursAt(s, "-", k) {
      assert s[k] == x[k];
      assert s[k..k + 1][0] == s[k];
    }
    FindIs(s, "-", |x|);
    assert s[|x| + 1..] == y;
    forall k | 0 <= k <= |y| ensures !OccursAt(y, "-", k) {
      if k < |y| {
        assert y[k..k + 1][0] == y[k];
      }
    }
    SplitWithoutSeparator(y, "-");
    assert s[..|x|] == x;
    assert Split(s, "-") == [s[..|x|]] + Split(s[|x| + 1..], "-");
  }

  // ---------------------------------------------------------------------
  // getAndroidCpuRate

  /** One reading of the three counters. */
  datatype CpuSample = CpuSample(process: int, total: int, idle: int)

  /** The three reads of one sample, in the order `getAndroidCpuRate` makes
      them. */
  function Sample(stat: string, totalOut: string, idleOut: string): Result<CpuSample> {
    var p :- ProcessTicks(stat);
    var t :- SumLines(Lines(totalOut), LineTotal);
    var i :- SumLines(Lines(idleOut), LineIdle);
    Ok(CpuSample(p, t, i))
  }

  /** `getAndroidCpuRate` without the rounding: the process's and the
      system's share of the ticks between two samples, in percent; any
      failed read or equal totals (a ZeroDivisionError) give (0, 0). */
  function CpuRate(first: Result<CpuSample>, second: Result<CpuSample>): (r: (real, real))
    ensures first.Err? || second.Err? ==> r == (0.0, 0.0)
  {
    if first.Err? || second.Err? then (0.0, 0.0)
    else
      var s1, s2 := first.value, second.value;
      var dt := s2.total - s1.total;
      if dt == 0 then (0.0, 0.0)
      else
        ((s2.process - s1.process) as real / dt as real * 100.0,
         ((s2.total - s2.idle) - (s1.total - s1.idle)) as real / dt as real * 100.0)
  }

  /** With the totals apart, the system rate and the idle share add up to
      100 percent. */
  lemma SysRateIsNonIdleShare(s1: CpuSample, s2: CpuSample)
    requires s2.total != s1.total
    ensures CpuRate(Ok(s1), Ok(s2)).1
      + (s2.idle - s1.idle) as real / (s2.total - s1.total) as real * 100.0 == 100.0
  {
    var dt := (s2.total - s1.total) as real;
    var busy := ((s2.total - s2.idle) - (s1.total - s1.idle)) as real;
    var idle := (s2.idle - s1.idle) as real;
    assert busy + idle == dt;
    assert busy / dt + idle / dt == dt / dt;
  }

  /** The process rate is a percentage when the process's ticks advance no
      more than the total's. */
  lemma AppRateIsPercentage(s1: CpuSample, s2: CpuSample)
    requires s2.total > s1.total
    requires 0 <= s2.process - s1.process <= s2.total - s1.total
    ensures 0.0 <= CpuRate(Ok(s1), Ok(s2)).0 <= 100.0
  {
    var dt := (s2.total - s1.total) as real;
    var dp := (s2.process - s1.process) as real;
    assert dp / dt <= 1.0;
  }

  /** Equal totals are the division by zero the rate swallows. */
  lemma CpuRateOfEqualTotals(s1: CpuSample, s2: CpuSample)
    requires s2.total == s1.total
    ensures CpuRate(Ok(s1), Ok(s2)) == (0.0, 0.0)
  {
  }

  // ---------------------------------------------------------------------
  // getAndroidMemory: re.search(r'<literal>\s*(\d+)', output)

  /** The maximal leading run of digits. */
  function TakeDigits(s: string): (r: string)
    ensures |r| <= |s| && r == s[..|r|] && AllDigits(r)
  {
    if s == [] || !IsDigit(s[0]) then [] else [s[0]] + TakeDigits(s[1..])
  }

  /** The pattern `<lit>\s*(\d+)` tried at index `i`: the digits it
      captures, if it matches there. */
  function MatchAt(s: string, lit: string, i: nat): (r: Option<string>)
    ensures r.Some? ==> |r.value| > 0 && AllDigits(r.value)
  {
    if OccursAt(s, lit, i) then
      var d := TakeDigits(DropSpace(s[i + |lit|..]));
      if d != [] then Some(d) else None
    else None
  }

  /** `re.search`: the capture of the leftmost match from index `i` on. */
  function SearchFrom(s: string, lit: string, i: nat): (r: Option<string>)
    requires i <= |s|
    ensures r.Some? ==> |r.value| > 0 && AllDigits(r.value)
    decreases |s| - i
  {
    if MatchAt(s, lit, i).Some? then MatchAt(s, lit, i)
    else if i == |s| then None
    else SearchFrom(s, lit, i + 1)
  }

  function Search(s: string, lit: string): (r: Option<string>)
    ensures r.Some? ==> |r.value| > 0 && AllDigits(r.value)
  {
    SearchFrom(s, lit, 0)
  }

  /** `\d+` takes exactly a digit run that is not followed by a digit. */
  lemma {:induction false} TakeDigitsOf(d: string, rest: string)
    requires AllDigits(d)
    requires rest == [] || !IsDigit(rest[0])
    ensures TakeDigits(d + rest) == d
  {
    if d != [] {
      assert (d + rest)[1..] == d[1..] + rest;
      TakeDigitsOf(d[1..], rest);
    }
  }

  /** The pattern followed by a space and a digit run matches there and
      captures the run. */
  lemma MatchAtDigits(s: string, lit: string, i: nat, d: string, rest: string)
    requires OccursAt(s, lit, i)
    requires |d| > 0 && AllDigits(d)
    requires rest == [] || !IsDigit(rest[0])
    requires s[i + |lit|..] == " " + d + rest
    ensures MatchAt(s, lit, i) == Some(d)
  {
    var after := " " + d + rest;
    assert after[1..] == d + rest;
    assert DropSpace(after) == d + rest;
    TakeDigitsOf(d, rest);
  }

  /** The pattern matches at none of the indices from `j` up to `i`. */
  predicate NoMatchBetween(s: string, lit: string, j: nat, i: nat)
    decreases i - j
  {
    j >= i || (MatchAt(s, lit, j).None? && NoMatchBetween(s, lit, j + 1, i))
  }

  lemma {:induction false} NoMatchBetweenOf(s: string, lit: string, j: nat, i: nat)
    requires forall k :: j <= k < i ==> MatchAt(s, lit, k).None?
    ensures NoMatchBetween(s, lit, j, i)
    decreases i - j
  {
    if j < i {
      NoMatchBetweenOf(s, lit, j + 1, i);
    }
  }

  /** Where the pattern matches nowhere between `j` and `i`, the search
      from `j` returns what the search from `i` does. */
  lemma {:induction false} SearchFromSkipsTo(s: string, lit: string, j: nat, i: nat)
    requires j <= i <= |s|
    requires NoMatchBetween(s, lit, j, i)
    ensures SearchFrom(s, lit, j) == SearchFrom(s, lit, i)
    decreases i - j
  {
    if j < i {
      SearchFromStep(s, lit, j, i);
      SearchFromSkipsTo(s, lit, j + 1, i);
    }
  }

  lemma SearchFromStep(s: string, lit: string, j: nat, i: nat)
    requires j < i <= |s| && NoMatchBetween(s, lit, j, i)
    ensures SearchFrom(s, lit, j) == SearchFrom(s, lit, j + 1)
    ensures NoMatchBetween(s, lit, j + 1, i)
  {
    SearchFromSkips(s, lit, j);
  }

  /** A match at an index is what the search from there returns. */
  lemma SearchFromHits(s: string, lit: string, i: nat)
    requires i <= |s| && MatchAt(s, lit, i).Some?
    ensures SearchFrom(s, lit, i) == MatchAt(s, lit, i)
  {
  }

  /** No match at an index: the search moves on to the next one. */
  lemma SearchFromSkips(s: string, lit: string, j: nat)
    requires j < |s| && MatchAt(s, lit, j).None?
    ensures SearchFrom(s, lit, j) == SearchFrom(s, lit, j + 1)
  {
  }

  /** `re.search` returns the capture of the leftmost index where the
      pattern matches. */
  lemma SearchFinds(s: string, lit: string, i: nat, d: string)
    requires i <= |s|
    requires MatchAt(s, lit, i) == Some(d)
    requires forall k :: 0 <= k < i ==> MatchAt(s, lit, k).None?
    ensures Search(s, lit) == Some(d)
  {
    NoMatchBetweenOf(s, lit, 0, i);
    SearchFromSkipsTo(s, lit, 0, i);
    SearchFromHits(s, lit, i);
  }

  /** A pattern that cannot start anywhere finds nothing. */
  lemma SearchAbsent(s: string, lit: string)
    requires forall k :: 0 <= k <= |s| ==> !OccursAt(s, lit, k)
    ensures Search(s, lit) == None
  {
    SearchAbsentFrom(s, lit, 0);
  }

  lemma {:induction false} SearchAbsentFrom(s: string, lit: string, i: nat)
    requires i <= |s|
    requires forall k :: i <= k <= |s| ==> !OccursAt(s, lit, k)
    ensures SearchFrom(s, lit, i) == None
    decreases |s| - i
  {
    if i < |s| {
      SearchAbsentFrom(s, lit, i + 1);
    }
  }

  /** The total PSS capture: `TOTAL\s*(\d+)`, else `TOTAL PSS:\s*(\d+)`. */
  function TotalGroup(out: string): (r: Option<string>)
    ensures r.Some? ==> |r.value| > 0 && AllDigits(r.value)
  {
    var m := Search(out, "TOTAL");
    if m.Some? then m else Search(out, "TOTAL PSS:")
  }

  /** The swap capture as written: `TOTAL SWAP PSS:\s*(\d+)`, else
      `TOTAL SWAP (KB):\s*(\d+)`, whose parentheses form the first group,
      so the text matched is `TOTAL SWAP KB:` and group 1 is `KB`. */
  function SwapGroupAsWritten(out: string): Option<string> {
    var m := Search(out, "TOTAL SWAP PSS:");
    if m.Some? then m
    else if Search(out, "TOTAL SWAP KB:").Some? then Some("KB")
    else None
  }

  /** The swap capture with the parentheses escaped: the fallback matches
      `TOTAL SWAP (KB):` and captures its number. */
  function SwapGroup(out: string): (r: Option<string>)
    ensures r.Some? ==> |r.value| > 0 && AllDigits(r.value)
  {
    var m := Search(out, "TOTAL SWAP PSS:");
    if m.Some? then m else Search(out, "TOTAL SWAP (KB):")
  }

  /** Two captures turned into megabytes; a missing match (an
      AttributeError) or a capture `float` refuses gives (0, 0). */
  function Megabytes(total: Option<string>, swap: Option<string>): (r: (real, real))
    ensures total.None? || swap.None? ==> r == (0.0, 0.0)
  {
    if total.None? || swap.None? then (0.0, 0.0)
    else
      match (Num(total.value), Num(swap.value))
      case (Ok(t), Ok(w)) => (t as real / 1024.0, w as real / 1024.0)
      case _ => (0.0, 0.0)
  }

  /** `getAndroidMemory` as written, without the rounding. */
  function MemoryAsWritten(out: string): (real, real) {
    Megabytes(TotalGroup(out), SwapGroupAsWritten(out))
  }

  /** `getAndroidMemory` with the fallback pattern escaped. */
  function Memory(out: string): (real, real) {
    Megabytes(TotalGroup(out), SwapGroup(out))
  }

  lemma KbIsNotANumber()
    ensures Num("KB").Err?
  {
    assert !IsDigit("KB"[0]);
  }

  /** As written, output without a `TOTAL SWAP PSS:` line always reads as
      (0, 0): the fallback either does not match or captures `KB`. */
  lemma MemoryAsWrittenNeedsPssSwap(out: string)
    requires Search(out, "TOTAL SWAP PSS:").None?
    ensures MemoryAsWritten(out) == (0.0, 0.0)
  {
    KbIsNotANumber();
  }

  /** Corrected, the megabytes are the captured kilobytes over 1024, from
      either swap line. */
  lemma MemoryReadsCaptures(out: string, t: string, w: string)
    requires TotalGroup(out) == Some(t) && SwapGroup(out) == Some(w)
    ensures AllDigits(t) && AllDigits(w)
    ensures Memory(out) == (DecValue(t) as real / 1024.0, DecValue(w) as real / 1024.0)
  {
    MegabytesOfDigits(t, w);
  }

  /** Captured digit runs always convert. */
  lemma MegabytesOfDigits(t: string, w: string)
    requires |t| > 0 && AllDigits(t) && |w| > 0 && AllDigits(w)
    ensures Megabytes(Some(t), Some(w)) == (DecValue(t) as real / 1024.0, DecValue(w) as real / 1024.0)
  {
  }

  /** The correction changes nothing when the PSS swap line is present. */
  lemma MemoryAgreesWithPssSwap(out: string)
    requires Search(out, "TOTAL SWAP PSS:").Some?
    ensures Memory(out) == MemoryAsWritten(out)
  {
  }

  /** The text `dumpsys meminfo` prints, reduced to its two lines. */
  function MemDump(total: nat, swap: nat): string {
    "TOTAL " + DigitsOf(total) + "\nTOTAL SWAP PSS: " + DigitsOf(swap)
  }

  /** Round trip: the two numbers printed in kilobytes read back in
      megabytes. */
  lemma MemoryOfDump(total: nat, swap: nat)
    ensures Memory(MemDump(total, swap)) == (total as real / 1024.0, swap as real / 1024.0)
  {
    MemoryOfLines(MemDump(total, swap), DigitsOf(total), DigitsOf(swap));
    MegabytesOfNumbers(total, swap);
  }

  /** The two printed numbers, captured, convert back to themselves. */
  lemma MegabytesOfNumbers(total: nat, swap: nat)
    ensures Megabytes(Some(DigitsOf(total)), Some(DigitsOf(swap))) == (total as real / 1024.0, swap as real / 1024.0)
  {
    DecValueOfDigits(total);
    DecValueOfDigits(swap);
    MegabytesOfDigits(DigitsOf(total), DigitsOf(swap));
  }

  /** A dump of the two lines reads as the megabytes of their numbers. */
  lemma MemoryOfLines(out: string, dt: string, ds: string)
    requires |dt| > 0 && AllDigits(dt) && |ds| > 0 && AllDigits(ds)
    requires out == "TOTAL " + dt + "\nTOTAL SWAP PSS: " + ds
    ensures Memory(out) == Megabytes(Some(dt), Some(ds))
  {
    TotalOfDump(out, dt, ds);
    SwapOfDump(out, dt, ds);
  }

  lemma TotalOfDump(out: string, dt: string, ds: string)
    requires |dt| > 0 && AllDigits(dt)
    requires out == "TOTAL " + dt + "\nTOTAL SWAP PSS: " + ds
    ensures TotalGroup(out) == Some(dt)
  {
    var rest := "\nTOTAL SWAP PSS: " + ds;
    assert out == "TOTAL" + (" " + dt + rest);
    assert out[..5] == "TOTAL";
    MatchAtDigits(out, "TOTAL", 0, dt, rest);
    SearchFinds(out, "TOTAL", 0, dt);
  }

  lemma SwapOfDump(out: string, dt: string, ds: string)
    requires |dt| > 0 && AllDigits(dt) && |ds| > 0 && AllDigits(ds)
    requires out == "TOTAL " + dt + "\nTOTAL SWAP PSS: " + ds
    ensures SwapGroup(out) == Some(ds)
  {
    var lit := "TOTAL SWAP PSS:";
    var p := 7 + |dt|;
    assert out == ("TOTAL " + dt + "\n") + lit + (" " + ds + []);
    assert out[p..p + |lit|] == lit;
    assert out[p + |lit|..] == " " + ds + [];
    MatchAtDigits(out, lit, p, ds, []);
    forall k | 0 <= k < p ensures MatchAt(out, lit, k).None? {
      NoSwapLineBefore(out, dt, ds, k);
    }
    SearchFinds(out, lit, p, ds);
  }

  /** Before the second line starts, `TOTAL SWAP PSS:` cannot begin. */
  lemma NoSwapLineBefore(out: string, dt: string, ds: string, k: nat)
    requires |dt| > 0 && AllDigits(dt)
    requires out == "TOTAL " + dt + "\nTOTAL SWAP PSS: " + ds
    requires k < 7 + |dt|
    ensures !OccursAt(out, "TOTAL SWAP PSS:", k)
  {
    var lit := "TOTAL SWAP PSS:";
    if k + |lit| <= |out| {
      if k == 0 {
        assert out[6] == dt[0];
        assert out[k..k + |lit|][6] != lit[6];
      } else if k == 2 {
        assert out[k..k + |lit|][1] != lit[1];
      } else if 6 <= k < 6 + |dt| {
        assert out[k] == dt[k - 6];
        assert out[k..k + |lit|][0] != lit[0];
      } else {
        assert out[k..k + |lit|][0] != lit[0];
      }
    }
  }

  /** Without a total line, both versions read (0, 0). */
  lemma MemoryWithoutTotal(out: string)
    requires TotalGroup(out).None?
    ensures Memory(out) == (0.0, 0.0) && MemoryAsWritten(out) == (0.0, 0.0)
  {
  }
}

/** Sequence and string operations the framework takes from Python's
    built-in `str`, `bytes` and `int`: prefix tests, `find`, `split`,
    `join`, whitespace splitting, decimal rendering and `int()` parsing. */
module Text {
  import opened Wrappers

  predicate StartsWith<T(==)>(s: seq<T>, prefix: seq<T>) {
    |prefix| <= |s| && s[..|prefix|] == prefix
  }

  predicate EndsWith<T(==)>(s: seq<T>, suffix: seq<T>) {
    |suffix| <= |s| && s[|s| - |suffix|..] == suffix
  }

  /** `d` occurs in `s` starting at index `i`. */
  predicate OccursAt<T(==)>(s: seq<T>, d: seq<T>, i: int) {
    0 <= i && i + |d| <= |s| && s[i..i + |d|] == d
  }

  function FindFrom<T(==)>(s: seq<T>, d: seq<T>, i: nat): (r: int)
    requires i <= |s|
    ensures r == -1 || (i <= r && OccursAt(s, d, r))
    ensures r == -1 ==> forall k :: i <= k <= |s| ==> !OccursAt(s, d, k)
    ensures r >= 0 ==> forall k :: i <= k < r ==> !OccursAt(s, d, k)
    decreases |s| - i
  {
    if OccursAt(s, d, i) then i
    else if i == |s| then -1
    else FindFrom(s, d, i + 1)
  }

  /** Python's `find`: the lowest index where `d` occurs in `s`, or -1. */
  function Find<T(==)>(s: seq<T>, d: seq<T>): (r: int)
    ensures r == -1 || OccursAt(s, d, r)
    ensures r == -1 ==> forall k :: 0 <= k <= |s| ==> !OccursAt(s, d, k)
    ensures r >= 0 ==> forall k :: 0 <= k < r ==> !OccursAt(s, d, k)
  {
    FindFrom(s, d, 0)
  }

  /** `Find` is pinned down by a first occurrence. */
  lemma FindIs<T>(s: seq<T>, d: seq<T>, p: nat)
    requires OccursAt(s, d, p)
    requires forall k :: 0 <= k < p ==> !OccursAt(s, d, k)
    ensures Find(s, d) == p
  {
  }

  predicate Contains<T(==)>(s: seq<T>, d: seq<T>) {
    Find(s, d) >= 0
  }

  /** The prefix before the first occurrence of `d` never contains `d`. */
  lemma {:induction false} PrefixBeforeFindIsFree<T>(s: seq<T>, d: seq<T>)
    requires Find(s, d) >= 0
    ensures forall k :: 0 <= k < Find(s, d) ==> !OccursAt(s[..Find(s, d)], d, k)
  {
    var f := Find(s, d);
    forall k | 0 <= k < f
      ensures !OccursAt(s[..f], d, k)
    {
      if OccursAt(s[..f], d, k) {
        assert s[..f][k..k + |d|] == s[k..k + |d|];
        assert OccursAt(s, d, k);
      }
    }
  }

  /** Python's `sep.join(parts)`. */
  function Join<T>(parts: seq<seq<T>>, sep: seq<T>): seq<T> {
    if |parts| == 0 then []
    else if |parts| == 1 then parts[0]
    else parts[0] + sep + Join(parts[1..], sep)
  }

  /** Python's `s.split(sep)` for a non-empty separator. */
  function Split<T(==)>(s: seq<T>, sep: seq<T>): (r: seq<seq<T>>)
    requires |sep| > 0
    ensures |r| >= 1
    decreases |s|
  {
    var i := Find(s, sep);
    if i < 0 then [s] else [s[..i]] + Split(s[i + |sep|..], sep)
  }

  /** With a one-element separator, every piece holds only elements of the
      text and never the separator. */
  lemma {:induction false} SplitPieces<T>(s: seq<T>, sep: seq<T>)
    requires |sep| == 1
    ensures forall j, k :: 0 <= j < |Split(s, sep)| && 0 <= k < |Split(s, sep)[j]| ==>
      Split(s, sep)[j][k] in s && Split(s, sep)[j][k] != sep[0]
    decreases |s|
  {
    var i := Find(s, sep);
    var p := Split(s, sep);
    if i < 0 {
      forall k | 0 <= k < |s| ensures s[k] != sep[0] {
        assert !OccursAt(s, sep, k);
        assert s[k..k + 1] == [s[k]];
      }
    } else {
      var rest := s[i + 1..];
      SplitPieces(rest, sep);
      forall k | 0 <= k < i ensures s[k] != sep[0] {
        assert !OccursAt(s, sep, k);
        assert s[k..k + 1] == [s[k]];
      }
      forall j, k | 0 <= j < |p| && 0 <= k < |p[j]| ensures p[j][k] in s && p[j][k] != sep[0] {
        if j == 0 {
          assert p[0] == s[..i];
          assert p[0][k] == s[k];
        } else {
          assert p[j] == Split(rest, sep)[j - 1];
          assert p[j][k] in rest;
        }
      }
    }
  }

  lemma SplitWithoutSeparator<T>(s: seq<T>, sep: seq<T>)
    requires |sep| > 0 && Find(s, sep) < 0
    ensures Split(s, sep) == [s]
  {
  }

  /** The first piece of a split is the text before the first separator. */
  lemma SplitHead<T>(s: seq<T>, sep: seq<T>)
    requires |sep| > 0
    ensures Find(s, sep) < 0 ==> Split(s, sep)[0] == s
    ensures Find(s, sep) >= 0 ==> Split(s, sep)[0] == s[..Find(s, sep)]
  {
  }

  /** Splitting a join gives the parts back when no part holds the
      separator's first element. */
  lemma {:induction false} SplitJoin<T>(parts: seq<seq<T>>, sep: seq<T>)
    requires |sep| > 0 && |parts| > 0
    requires forall i :: 0 <= i < |parts| ==> sep[0] !in parts[i]
    ensures Split(Join(parts, sep), sep) == parts
    decreases |parts|
  {
    var p := parts[0];
    if |parts| == 1 {
      forall k | 0 <= k <= |p| ensures !OccursAt(p, sep, k) {
        if k + |sep| <= |p| {
          assert p[k..k + |sep|][0] == p[k];
        }
      }
      SplitWithoutSeparator(p, sep);
    } else {
      var rest := Join(parts[1..], sep);
      var s := p + sep + rest;
      assert Join(parts, sep) == s;
      assert s[|p|..|p| + |sep|] == sep;
      forall k | 0 <= k < |p| ensures !OccursAt(s, sep, k) {
        assert s[k] == p[k];
        if k + |sep| <= |s| {
          assert s[k..k + |sep|][0] == s[k];
        }
      }
      FindIs(s, sep, |p|);
      assert s[..|p|] == p;
      assert s[|p| + |sep|..] == rest;
      SplitJoin(parts[1..], sep);
    }
  }

  // ---- whitespace ----

  /** The ASCII characters Python's `str.split()` and `int()` treat as whitespace. */
  predicate IsSpace(c: char) {
    c == ' ' || (9 <= c as int <= 13) || (28 <= c as int <= 31)
  }

  function DropSpace(s: string): (r: string)
    ensures |r| <= |s| && r == s[|s| - |r|..]
    ensures r == [] || !IsSpace(r[0])
  {
    if s == [] || !IsSpace(s[0]) then s else DropSpace(s[1..])
  }

  function DropSpaceEnd(s: string): (r: string)
    ensures |r| <= |s| && r == s[..|r|]
    ensures r == [] || !IsSpace(r[|r| - 1])
  {
    if s == [] || !IsSpace(s[|s| - 1]) then s else DropSpaceEnd(s[..|s| - 1])
  }

  /** Python's `str.strip()`. */
  function Strip(s: string): string {
    DropSpaceEnd(DropSpace(s))
  }

  /** Stripping only removes characters: what is left comes from the text. */
  lemma StripKeeps(s: string)
    ensures forall k :: 0 <= k < |Strip(s)| ==> Strip(s)[k] in s
  {
    var d := DropSpace(s);
    var e := DropSpaceEnd(d);
    forall k | 0 <= k < |e| ensures e[k] in s {
      assert e[k] == d[k] == s[|s| - |d| + k];
    }
  }

  function TakeWord(s: string): (r: string)
    ensures |r| <= |s| && r == s[..|r|]
    ensures s != [] && !IsSpace(s[0]) ==> |r| > 0
    ensures forall i :: 0 <= i < |r| ==> !IsSpace(r[i])
  {
    if s == [] || IsSpace(s[0]) then [] else [s[0]] + TakeWord(s[1..])
  }

  /** Python's `str.split()` with no argument: the maximal runs of
      non-whitespace characters, in order. */
  function Fields(s: string): seq<string>
    decreases |s|
  {
    var t := DropSpace(s);
    if t == [] then []
    else
      var w := TakeWord(t);
      [w] + Fields(t[|w|..])
  }

  /** Every field of `str.split()` is non-empty and starts with a
      non-space character. */
  lemma {:induction false} FieldsStartWithWord(s: string)
    ensures forall i :: 0 <= i < |Fields(s)| ==> |Fields(s)[i]| > 0 && !IsSpace(Fields(s)[i][0])
    decreases |s|
  {
    var t := DropSpace(s);
    if t != [] {
      var w := TakeWord(t);
      var rest := Fields(t[|w|..]);
      FieldsStartWithWord(t[|w|..]);
      assert Fields(s) == [w] + rest;
      assert w[0] == t[0];
      forall i | 0 <= i < |Fields(s)| ensures |Fields(s)[i]| > 0 && !IsSpace(Fields(s)[i][0]) {
        if i > 0 {
          assert Fields(s)[i] == rest[i - 1];
        }
      }
    }
  }

  // ---- decimal numbers ----

  predicate IsDigit(c: char) {
    '0' <= c <= '9'
  }

  predicate AllDigits(s: string) {
    forall i :: 0 <= i < |s| ==> IsDigit(s[i])
  }

  function DigitChar(d: nat): (c: char)
    requires d < 10
    ensures IsDigit(c) && c as int - '0' as int == d
  {
    (('0' as int) + d) as char
  }

  /** The value of a string of decimal digits (leading zeros allowed). */
  function DecValue(s: string): nat
    requires AllDigits(s)
  {
    if s == [] then 0 else DecValue(s[..|s| - 1]) * 10 + (s[|s| - 1] as int - '0' as int)
  }

  /** Python's `str(n)` for a natural number. */
  function DigitsOf(n: nat): (r: string)
    ensures |r| > 0 && AllDigits(r)
  {
    if n < 10 then [DigitChar(n)] else DigitsOf(n / 10) + [DigitChar(n % 10)]
  }

  /** Python's `str(i)` for an integer. */
  function IntToString(i: int): (r: string)
    ensures |r| > 0
  {
    if i < 0 then "-" + DigitsOf(-i) else DigitsOf(i)
  }

  function Zeros(k: nat): (r: string)
    ensures |r| == k && AllDigits(r)
    ensures forall i :: 0 <= i < k ==> r[i] == '0'
  {
    if k == 0 then [] else Zeros(k - 1) + ['0']
  }

  /** Python's `f"{n:0{width}d}"`: the decimal digits of `n`, left-padded
      with zeros to at least `width` characters. */
  function ZeroPad(n: nat, width: nat): (r: string)
    ensures AllDigits(r) && |r| >= width
  {
    var d := DigitsOf(n);
    if |d| < width then Zeros(width - |d|) + d else d
  }

  lemma {:induction false} DecValueOfDigits(n: nat)
    ensures DecValue(DigitsOf(n)) == n
  {
    if n >= 10 {
      DecValueOfDigits(n / 10);
      var s := DigitsOf(n);
      assert s[..|s| - 1] == DigitsOf(n / 10);
    }
  }

  lemma {:induction false} DecValueIgnoresLeadingZeros(k: nat, s: string)
    requires AllDigits(s)
    ensures DecValue(Zeros(k) + s) == DecValue(s)
    decreases |s|
  {
    if s == [] {
      assert Zeros(k) + s == Zeros(k);
      ZerosValue(k);
    } else {
      var t := Zeros(k) + s;
      assert t[..|t| - 1] == Zeros(k) + s[..|s| - 1];
      DecValueIgnoresLeadingZeros(k, s[..|s| - 1]);
    }
  }

  lemma {:induction false} ZerosValue(k: nat)
    ensures DecValue(Zeros(k)) == 0
  {
    if k > 0 {
      assert Zeros(k)[..k - 1] == Zeros(k - 1);
      ZerosValue(k - 1);
    }
  }

  /** A zero-padded rendering reads back as the number. */
  lemma ZeroPadValue(n: nat, width: nat)
    ensures DecValue(ZeroPad(n, width)) == n
  {
    DecValueOfDigits(n);
    var d := DigitsOf(n);
    if |d| < width {
      assert ZeroPad(n, width) == Zeros(width - |d|) + d;
      DecValueIgnoresLeadingZeros(width - |d|, d);
    } else {
      assert ZeroPad(n, width) == d;
    }
  }

  /** Digits with single underscores between digits, as `int()` accepts. */
  predicate IntBody(b: string) {
    |b| > 0 && IsDigit(b[0]) && IsDigit(b[|b| - 1]) &&
    forall i :: 0 <= i < |b| ==> BodyChar(b, i)
  }

  predicate BodyChar(b: string, i: nat)
    requires i < |b|
  {
    IsDigit(b[i]) || (b[i] == '_' && 0 < i < |b| - 1 && IsDigit(b[i - 1]) && IsDigit(b[i + 1]))
  }

  lemma IntBodyChars(b: string)
    requires IntBody(b)
    ensures forall i :: 0 <= i < |b| ==> IsDigit(b[i]) || b[i] == '_'
  {
    forall i | 0 <= i < |b|
      ensures IsDigit(b[i]) || b[i] == '_'
    {
      assert BodyChar(b, i);
    }
  }

  lemma AllDigitsIsBody(b: string)
    requires |b| > 0 && AllDigits(b)
    ensures IntBody(b)
  {
    forall i | 0 <= i < |b|
      ensures BodyChar(b, i)
    {
      assert IsDigit(b[i]);
    }
  }

  function DropUnderscores(b: string): (r: string)
    requires forall i :: 0 <= i < |b| ==> IsDigit(b[i]) || b[i] == '_'
    ensures AllDigits(r)
    ensures AllDigits(b) ==> r == b
  {
    if b == [] then []
    else if b[|b| - 1] == '_' then DropUnderscores(b[..|b| - 1])
    else DropUnderscores(b[..|b| - 1]) + [b[|b| - 1]]
  }

  function BodyValue(b: string): nat {
    if IntBody(b) then
      IntBodyChars(b);
      DecValue(DropUnderscores(b))
    else 0
  }

  /** Python's `int(s)` on ASCII text: surrounding whitespace, an optional
      sign, then decimal digits with single underscores between digits;
      anything else is a ValueError. */
  function PyInt(s: string): (r: Result<int>)
    ensures r.Err? ==> r.error == ValueError
  {
    var t := Strip(s);
    if |t| > 0 && (t[0] == '-' || t[0] == '+') then
      if IntBody(t[1..]) then
        var v: int := BodyValue(t[1..]);
        Ok(if t[0] == '-' then -v else v)
      else Err(ValueError)
    else if IntBody(t) then Ok(BodyValue(t))
    else Err(ValueError)
  }

  lemma StripNoSpace(s: string)
    requires |s| > 0 && !IsSpace(s[0]) && !IsSpace(s[|s| - 1])
    ensures Strip(s) == s
  {
  }

  /** `int()` reads back any non-empty run of decimal digits, leading
      zeros included. */
  lemma {:induction false} PyIntOfDigits(s: string)
    requires |s| > 0 && AllDigits(s)
    ensures PyInt(s) == Ok(DecValue(s))
  {
    StripNoSpace(s);
    AllDigitsIsBody(s);
  }

  lemma {:induction false} PyIntOfNegative(d: string, n: nat)
    requires |d| > 0 && AllDigits(d) && DecValue(d) == n
    ensures PyInt("-" + d) == Ok(-(n as int))
  {
    var s := "-" + d;
    assert s[1..] == d;
    StripNoSpace(s);
    AllDigitsIsBody(d);
  }

  /** `int(str(i)) == i`. */
  lemma {:induction false} PyIntRoundTrip(i: int)
    ensures PyInt(IntToString(i)) == Ok(i)
  {
    if i < 0 {
      var n: nat := -i;
      assert IntToString(i) == "-" + DigitsOf(n);
      PyIntOfNegativeDigits(n);
    } else {
      assert IntToString(i) == DigitsOf(i);
      PyIntOfNatDigits(i);
    }
  }

  lemma PyIntOfNatDigits(n: nat)
    ensures PyInt(DigitsOf(n)) == Ok(n)
  {
    var d := DigitsOf(n);
    DecValueOfDigits(n);
    assert DecValue(d) == n;
    PyIntOfDigits(d);
  }

  lemma PyIntOfNegativeDigits(n: nat)
    ensures PyInt("-" + DigitsOf(n)) == Ok(-(n as int))
  {
    DecValueOfDigits(n);
    PyIntOfNegative(DigitsOf(n), n);
  }

  function Pow10(k: nat): (p: nat)
    ensures p >= 1
  {
    if k == 0 then 1 else 10 * Pow10(k - 1)
  }

  lemma {:induction false} DecValueBound(s: string)
    requires AllDigits(s)
    ensures DecValue(s) < Pow10(|s|)
  {
    if s != [] {
      DecValueBound(s[..|s| - 1]);
    }
  }

  lemma {:induction false} DecValueConcat(a: string, b: string)
    requires AllDigits(a) && AllDigits(b)
    ensures AllDigits(a + b)
    ensures DecValue(a + b) == DecValue(a) * Pow10(|b|) + DecValue(b)
    decreases |b|
  {
    assert AllDigits(a + b) by {
      forall i | 0 <= i < |a + b| ensures IsDigit((a + b)[i]) {
        if i < |a| { assert (a + b)[i] == a[i]; } else { assert (a + b)[i] == b[i - |a|]; }
      }
    }
    if b == [] {
      assert a + b == a;
    } else {
      var b' := b[..|b| - 1];
      assert (a + b)[..|a + b| - 1] == a + b';
      DecValueConcat(a, b');
      var c := b[|b| - 1] as int - '0' as int;
      var x, p, y := DecValue(a), Pow10(|b'|), DecValue(b');
      assert DecValue(a + b) == (x * p + y) * 10 + c;
      assert DecValue(b) == y * 10 + c;
      assert Pow10(|b|) == p * 10;
      Regroup(x, p, y, c);
    }
  }

  /** Distributing one more decimal digit over a concatenation's value. */
  lemma Regroup(x: int, p: int, y: int, c: int)
    ensures (x * p + y) * 10 + c == x * (p * 10) + (y * 10 + c)
  {
    assert (x * p + y) * 10 == x * p * 10 + y * 10;
    assert x * p * 10 == x * (p * 10);
  }

  lemma MulMonotone(a: int, b: int, p: nat)
    requires a <= b
    ensures a * p <= b * p
  {
    var d: nat := b - a;
    assert b * p == a * p + d * p;
  }

  /** Euclidean division is unique: a quotient and an in-range remainder
      determine `%`. */
  lemma ModOfMultiplePlus(a: nat, p: nat, b: nat)
    requires 0 <= b < p
    ensures (a * p + b) % p == b
  {
    var x := a * p + b;
    var q := x / p;
    var r := x % p;
    assert q * p + r == a * p + b;
    if q > a {
      MulMonotone(a + 1, q, p);
      assert false;
    } else if q < a {
      MulMonotone(q + 1, a, p);
      assert false;
    }
  }

  /** The last `k` digits of a decimal string are its value modulo 10^k. */
  lemma {:induction false} DecValueSuffix(s: string, k: nat)
    requires AllDigits(s) && k <= |s|
    ensures DecValue(s[|s| - k..]) == DecValue(s) % Pow10(k)
  {
    var a := s[..|s| - k];
    var b := s[|s| - k..];
    assert s == a + b;
    DecValueConcat(a, b);
    DecValueBound(b);
    ModOfMultiplePlus(DecValue(a), Pow10(k), DecValue(b));
  }
}

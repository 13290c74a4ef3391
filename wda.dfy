/** The iOS driver's screen-recording reader and element wrapper.

    `SocketBuffer` keeps the bytes received from the device socket that
    have not been consumed yet. The socket is an input: the successive
    answers of `recv`, each a chunk of bytes or None (a closed socket).
    The recorder speaks HTTP/1.0 to the MJPEG server on the device: it
    sends a request (RFC 1945, section 5.1), skips the response header,
    and then reads frames, each announced by a `Content-Length` header
    (RFC 1945, section 10.4) and followed by exactly that many bytes. */
module Wda {
  import opened Wrappers
  import opened Text
  import opened Locators

  newtype byte = x: int | 0 <= x < 256
  type Bytes = seq<byte>

  predicate IsAscii(s: string) {
    forall i :: 0 <= i < |s| ==> s[i] as int < 128
  }

  /** Bytes of an ASCII text. */
  function Encode(s: string): (r: Bytes)
    requires IsAscii(s)
    ensures |r| == |s| && forall i :: 0 <= i < |s| ==> r[i] as int == s[i] as int
  {
    seq(|s|, i requires 0 <= i < |s| => s[i] as int as byte)
  }

  /** `bytes.decode('utf-8')` restricted to ASCII: a byte of 128 or more is
      refused with a ValueError, even inside a valid multibyte sequence
      that Python would decode. */
  function Decode(b: Bytes): (r: Result<string>)
    ensures r.Ok? <==> forall i :: 0 <= i < |b| ==> b[i] < 128
    ensures r.Ok? ==> IsAscii(r.value) && Encode(r.value) == b
    ensures r.Err? ==> r.error == ValueError
  {
    if forall i :: 0 <= i < |b| ==> b[i] < 128 then
      var s := seq(|b|, i requires 0 <= i < |b| => b[i] as int as char);
      assert Encode(s) == b;
      Ok(s)
    else Err(ValueError)
  }

  lemma DecodeEncode(s: string)
    requires IsAscii(s)
    ensures Decode(Encode(s)) == Ok(s)
  {
    var e := Encode(s);
    assert forall i :: 0 <= i < |e| ==> e[i] < 128;
    var t := Decode(e).value;
    assert |t| == |s|;
    forall i | 0 <= i < |s| ensures t[i] == s[i] {
      assert Encode(t)[i] == e[i];
      assert t[i] as int == s[i] as int;
    }
    assert t == s;
  }

  lemma EncodeAppend(a: string, b: string)
    requires IsAscii(a) && IsAscii(b)
    ensures IsAscii(a + b) && Encode(a + b) == Encode(a) + Encode(b)
  {
    assert IsAscii(a + b) by {
      forall i | 0 <= i < |a + b| ensures (a + b)[i] as int < 128 {
        if i < |a| { assert (a + b)[i] == a[i]; } else { assert (a + b)[i] == b[i - |a|]; }
      }
    }
    var l, r := Encode(a + b), Encode(a) + Encode(b);
    forall i | 0 <= i < |l| ensures l[i] == r[i] {
      if i < |a| { assert (a + b)[i] == a[i]; } else { assert (a + b)[i] == b[i - |a|]; }
    }
  }

  const CRLF: Bytes := [13, 10]
  const HEADER_END: Bytes := [13, 10, 13, 10]
  const CONTENT_LENGTH: Bytes := Encode("Content-Length")

  // ---------------------------------------------------------------------
  // The buffer as values
  // ---------------------------------------------------------------------

  /** The buffered bytes and the socket's remaining answers. */
  datatype Conn = Conn(buf: Bytes, incoming: seq<Option<Bytes>>)

  /** The bytes the socket still delivers before it closes. */
  function Delivered(incoming: seq<Option<Bytes>>): Bytes {
    if incoming == [] || incoming[0].None? then [] else incoming[0].value + Delivered(incoming[1..])
  }

  /** Everything still readable: the buffer, then what the socket delivers. */
  function Stream(c: Conn): Bytes {
    c.buf + Delivered(c.incoming)
  }

  /** `_drain`: one `recv`, appended at the end of the buffer; a closed
      socket is an IOError. A socket with no answers left is treated as
      closed. */
  function Refill(c: Conn): (r: (Conn, Result<nat>))
    ensures r.1.Err? <==> c.incoming == [] || c.incoming[0].None?
    ensures r.1.Err? ==> r.1.error == IOError && r.0.buf == c.buf && Stream(c) == c.buf
    ensures r.1.Ok? ==> (|r.0.incoming| < |c.incoming| && Stream(r.0) == Stream(c)
      && r.0.buf == c.buf + c.incoming[0].value && r.1.value == |c.incoming[0].value|)
  {
    if c.incoming == [] then (c, Err(IOError))
    else if c.incoming[0].None? then (c.(incoming := c.incoming[1..]), Err(IOError))
    else
      assert Stream(c) == c.buf + c.incoming[0].value + Delivered(c.incoming[1..]);
      (Conn(c.buf + c.incoming[0].value, c.incoming[1..]), Ok(|c.incoming[0].value|))
  }

  /** `read_until`: drain until the delimiter is buffered, then return the
      bytes before its first occurrence and drop them and it. */
  function Until(c: Conn, d: Bytes): (r: (Conn, Result<Bytes>))
    ensures |r.0.incoming| <= |c.incoming|
    ensures r.1.Err? ==> r.1.error == IOError
    ensures r.1.Ok? && |d| > 0 ==>
      |r.0.incoming| < |c.incoming| || (r.0.incoming == c.incoming && |r.0.buf| < |c.buf|)
    decreases |c.incoming|
  {
    var i := Find(c.buf, d);
    if i >= 0 then (c.(buf := c.buf[i + |d|..]), Ok(c.buf[..i]))
    else
      var dr := Refill(c);
      if dr.1.Err? then (dr.0, Err(dr.1.error)) else Until(dr.0, d)
  }

  /** Where `bytearray[:n]` cuts a buffer of length `len`: a negative `n`
      counts from the end. */
  function Cut(n: int, len: nat): (k: nat)
    requires n <= len
    ensures k <= len && (n >= 0 ==> k == n)
  {
    if n >= 0 then n else if -n <= len then len + n else 0
  }

  /** `read_bytes`: drain while fewer than `n` bytes are buffered, then
      return the first `n` (in Python's slice sense) and keep the rest. */
  function Take(c: Conn, n: int): (r: (Conn, Result<Bytes>))
    ensures r.1.Err? ==> r.1.error == IOError
    ensures r.1.Ok? && n >= 0 ==> |r.1.value| == n
    decreases |c.incoming|
  {
    if n > |c.buf| then
      var dr := Refill(c);
      if dr.1.Err? then (dr.0, Err(dr.1.error)) else Take(dr.0, n)
    else
      var k := Cut(n, |c.buf|);
      (c.(buf := c.buf[k..]), Ok(c.buf[..k]))
  }

  /** The value of a `Content-Length` line: the text after the first ": "
      as a Python integer. A line without ": " is an IndexError. */
  function LengthOf(line: Bytes): (r: Result<int>)
    ensures r.Err? ==> r.error in {ValueError, IndexError}
  {
    var text :- Decode(line);
    var parts := Split(text, ": ");
    if |parts| < 2 then Err(IndexError) else PyInt(parts[1])
  }

  /** The first header loop of a frame: read lines until one starts with
      `Content-Length`, and parse its value. */
  function ReadLength(c: Conn): (r: (Conn, Result<int>))
    decreases |c.incoming|, |c.buf|
  {
    var lr := Until(c, CRLF);
    if lr.1.Err? then (lr.0, Err(lr.1.error))
    else if StartsWith(lr.1.value, CONTENT_LENGTH) then (lr.0, LengthOf(lr.1.value))
    else ReadLength(lr.0)
  }

  /** The second header loop: read lines up to the empty one. */
  function SkipHeader(c: Conn): (r: (Conn, Result<()>))
    decreases |c.incoming|, |c.buf|
  {
    var lr := Until(c, CRLF);
    if lr.1.Err? then (lr.0, Err(lr.1.error))
    else if lr.1.value == [] then (lr.0, Ok(()))
    else SkipHeader(lr.0)
  }

  /** One frame of the recording: its length header, the rest of its
      header, and its body. */
  function ReadFrame(c: Conn): (r: (Conn, Result<Bytes>))
    ensures r.1.Err? ==> r.1.error in {IOError, ValueError, IndexError}
  {
    var lr := ReadLength(c);
    if lr.1.Err? then
      assert lr.1.error in {IOError, ValueError, IndexError} by { ReadLengthErrors(c); }
      (lr.0, Err(lr.1.error))
    else
      var sr := SkipHeader(lr.0);
      if sr.1.Err? then
        assert sr.1.error == IOError by { SkipHeaderErrors(lr.0); }
        (sr.0, Err(sr.1.error))
      else Take(sr.0, lr.1.value)
  }

  lemma {:induction false} ReadLengthErrors(c: Conn)
    ensures ReadLength(c).1.Err? ==> ReadLength(c).1.error in {IOError, ValueError, IndexError}
    decreases |c.incoming|, |c.buf|
  {
    var lr := Until(c, CRLF);
    if lr.1.Ok? && !StartsWith(lr.1.value, CONTENT_LENGTH) {
      ReadLengthErrors(lr.0);
    }
  }

  lemma {:induction false} SkipHeaderErrors(c: Conn)
    ensures SkipHeader(c).1.Err? ==> SkipHeader(c).1.error == IOError
    decreases |c.incoming|, |c.buf|
  {
    var lr := Until(c, CRLF);
    if lr.1.Ok? && lr.1.value != [] {
      SkipHeaderErrors(lr.0);
    }
  }

  // ---------------------------------------------------------------------
  // What the reads consume
  // ---------------------------------------------------------------------

  lemma DeliveredAfterChunk(incoming: seq<Option<Bytes>>)
    requires incoming != [] && incoming[0].Some?
    ensures Delivered(incoming) == incoming[0].value + Delivered(incoming[1..])
  {
  }

  /** A successful `read_until` consumes the returned bytes and the
      delimiter from the front of the stream, and the delimiter does not
      occur earlier: the returned bytes never contain it. */
  lemma {:induction false} ReadUntilConsumes(c: Conn, d: Bytes)
    requires Until(c, d).1.Ok?
    ensures var (c', r) := Until(c, d);
      Stream(c) == r.value + d + Stream(c')
      && (forall k :: 0 <= k < |r.value| ==> !OccursAt(Stream(c), d, k))
      && (forall k :: 0 <= k < |r.value| ==> !OccursAt(r.value, d, k))
    decreases |c.incoming|
  {
    var i := Find(c.buf, d);
    if i >= 0 {
      var x := c.buf[..i];
      assert c.buf == x + d + c.buf[i + |d|..];
      forall k | 0 <= k < |x| ensures !OccursAt(Stream(c), d, k) {
        assert !OccursAt(c.buf, d, k);
      }
      forall k | 0 <= k < |x| ensures !OccursAt(x, d, k) {
        assert !OccursAt(c.buf, d, k);
        if k + |d| <= |x| {
          assert x[k..k + |d|] == c.buf[k..k + |d|];
        }
      }
    } else {
      var dr := Refill(c);
      ReadUntilConsumes(dr.0, d);
    }
  }

  /** Conversely, when the stream holds the delimiter after `x` and not
      before, `read_until` returns `x` and leaves what follows. */
  lemma {:induction false} ReadUntilFinds(c: Conn, d: Bytes, x: Bytes, rest: Bytes)
    requires Stream(c) == x + d + rest
    requires forall k :: 0 <= k < |x| ==> !OccursAt(Stream(c), d, k)
    ensures Until(c, d).1 == Ok(x) && Stream(Until(c, d).0) == rest
    decreases |c.incoming|
  {
    var s := Stream(c);
    assert OccursAt(s, d, |x|);
    if Find(c.buf, d) >= 0 {
      UntilInBuffer(c, d, x, rest);
    } else {
      assert Delivered(c.incoming) != [] by {
        if |x| + |d| <= |c.buf| {
          assert c.buf[|x|..|x| + |d|] == s[|x|..|x| + |d|];
          assert OccursAt(c.buf, d, |x|);
        }
      }
      assert Refill(c).1.Ok?;
      UntilRefills(c, d);
      ReadUntilFinds(Refill(c).0, d, x, rest);
    }
  }

  /** The found case of `ReadUntilFinds`: the delimiter is already buffered. */
  lemma UntilInBuffer(c: Conn, d: Bytes, x: Bytes, rest: Bytes)
    requires Stream(c) == x + d + rest
    requires forall k :: 0 <= k < |x| ==> !OccursAt(Stream(c), d, k)
    requires Find(c.buf, d) >= 0
    ensures Until(c, d).1 == Ok(x) && Stream(Until(c, d).0) == rest
  {
    FirstInBuffer(c.buf, Delivered(c.incoming), d, x, rest);
  }

  /** When a buffer followed by more bytes reads `x`, `d`, `rest` with no
      earlier `d`, a `d` found in the buffer is that one. */
  lemma FirstInBuffer(buf: Bytes, tail: Bytes, d: Bytes, x: Bytes, rest: Bytes)
    requires buf + tail == x + d + rest
    requires forall k :: 0 <= k < |x| ==> !OccursAt(buf + tail, d, k)
    requires Find(buf, d) >= 0
    ensures Find(buf, d) == |x| && buf[..|x|] == x && buf[|x| + |d|..] + tail == rest
  {
    var s := buf + tail;
    var i := Find(buf, d);
    assert OccursAt(s, d, i) by {
      assert s[i..i + |d|] == buf[i..i + |d|];
    }
    assert i <= |x| by {
      assert OccursAt(buf, d, i);
      if |x| + |d| <= |buf| {
        assert s[|x|..|x| + |d|] == d;
        assert buf[|x|..|x| + |d|] == s[|x|..|x| + |d|];
        assert OccursAt(buf, d, |x|);
      }
    }
    assert buf[..i] == s[..|x|];
    assert buf[i + |d|..] + tail == s[|x| + |d|..];
  }

  /** Without the delimiter buffered, `read_until` drains once and goes on. */
  lemma UntilRefills(c: Conn, d: Bytes)
    requires Find(c.buf, d) < 0 && Refill(c).1.Ok?
    ensures Until(c, d) == Until(Refill(c).0, d)
  {
  }

  /** A successful `read_bytes` consumes exactly the returned bytes. */
  lemma {:induction false} ReadBytesConsumes(c: Conn, n: int)
    requires Take(c, n).1.Ok?
    ensures Stream(c) == Take(c, n).1.value + Stream(Take(c, n).0)
    decreases |c.incoming|
  {
    if n > |c.buf| {
      ReadBytesConsumes(Refill(c).0, n);
    } else {
      var k := Cut(n, |c.buf|);
      assert c.buf == c.buf[..k] + c.buf[k..];
    }
  }

  /** With at least `n` bytes still to come, `read_bytes(n)` returns them. */
  lemma {:induction false} ReadBytesTakes(c: Conn, n: nat)
    requires n <= |Stream(c)|
    ensures Take(c, n).1 == Ok(Stream(c)[..n])
    ensures Stream(Take(c, n).0) == Stream(c)[n..]
    decreases |c.incoming|
  {
    if n > |c.buf| {
      assert Delivered(c.incoming) != [];
      assert c.incoming[0].Some?;
      var c1 := Refill(c).0;
      ReadBytesTakes(c1, n);
      assert Take(c, n) == Take(c1, n);
    } else {
      assert Stream(c)[..n] == c.buf[..n];
      assert Stream(c)[n..] == c.buf[n..] + Delivered(c.incoming);
    }
  }

  // ---------------------------------------------------------------------
  // The frame format
  // ---------------------------------------------------------------------

  /** The header line announcing a body of `n` bytes. */
  function LengthLine(n: nat): (s: string)
    ensures IsAscii(s)
  {
    var digits := DigitsOf(n);
    assert IsAscii(digits) by {
      forall i | 0 <= i < |digits| ensures digits[i] as int < 128 { assert IsDigit(digits[i]); }
    }
    EncodeAppend("Content-Length: ", digits);
    "Content-Length: " + digits
  }

  /** A frame as the server sends it: the length line, the empty line that
      ends the header, then the body. */
  function Frame(body: Bytes): Bytes {
    Encode(LengthLine(|body|)) + CRLF + CRLF + body
  }

  /** The length line holds no carriage return. */
  lemma LengthLineHasNoCR(n: nat)
    ensures forall k :: 0 <= k < |LengthLine(n)| ==> LengthLine(n)[k] != '\r'
  {
    var digits := DigitsOf(n);
    var p := "Content-Length: ";
    forall k | 0 <= k < |LengthLine(n)| ensures LengthLine(n)[k] != '\r' {
      if k < |p| {
        assert LengthLine(n)[k] == p[k];
      } else {
        assert LengthLine(n)[k] == digits[k - |p|];
        assert IsDigit(digits[k - |p|]);
      }
    }
  }

  /** The encoded length line holds no carriage-return byte. */
  lemma LengthLineBytesNoCR(n: nat)
    ensures forall k :: 0 <= k < |Encode(LengthLine(n))| ==> Encode(LengthLine(n))[k] != 13
  {
    LengthLineHasNoCR(n);
  }

  /** A CRLF cannot start inside a prefix free of carriage returns. */
  lemma NoCRBeforeEnd(s: Bytes, line: Bytes, tail: Bytes)
    requires s == line + tail
    requires forall k :: 0 <= k < |line| ==> line[k] != 13
    ensures forall k :: 0 <= k < |line| ==> !OccursAt(s, CRLF, k)
  {
    forall k | 0 <= k < |line| ensures !OccursAt(s, CRLF, k) {
      assert s[k] == line[k];
    }
  }

  /** The separator in a length line is the one after the key. */
  lemma LengthLineSeparator(n: nat)
    ensures Find(LengthLine(n), ": ") == 14
    ensures LengthLine(n)[16..] == DigitsOf(n)
  {
    var text := LengthLine(n);
    assert text[..16] == "Content-Length: ";
    assert OccursAt(text, ": ", 14);
    forall k | 0 <= k < 14 ensures !OccursAt(text, ": ", k) {
      assert text[k] == "Content-Length: "[k];
      assert k == 0 || k == 1 || k == 2 || k == 3 || k == 4 || k == 5 || k == 6
        || k == 7 || k == 8 || k == 9 || k == 10 || k == 11 || k == 12 || k == 13;
    }
    FindIs(text, ": ", 14);
  }

  /** Splitting a length line at ": " gives the key and the digits. */
  lemma LengthLineSplits(n: nat)
    ensures Split(LengthLine(n), ": ") == ["Content-Length", DigitsOf(n)]
  {
    var text := LengthLine(n);
    var digits := DigitsOf(n);
    LengthLineSeparator(n);
    var tail := text[16..];
    SplitWithoutSeparator(tail, ": ");
    assert text[..14] == "Content-Length";
  }

  /** The length line starts with `Content-Length` and its value parses
      back to `n`. */
  lemma LengthLineParses(n: nat)
    ensures StartsWith(Encode(LengthLine(n)), CONTENT_LENGTH)
    ensures LengthOf(Encode(LengthLine(n))) == Ok(n)
  {
    var digits := DigitsOf(n);
    assert IsAscii(digits) by {
      forall i | 0 <= i < |digits| ensures digits[i] as int < 128 { assert IsDigit(digits[i]); }
    }
    var text := LengthLine(n);
    assert text == "Content-Length" + (": " + digits);
    EncodeAppend("Content-Length", ": " + digits);
    DecodeEncode(text);
    LengthLineSplits(n);
    PyIntOfDigits(digits);
    DecValueOfDigits(n);
  }

  /** The first header loop reads the length line of a frame and leaves
      the empty line that ends its header. */
  lemma ReadLengthOfFrame(c: Conn, body: Bytes, rest: Bytes)
    requires Stream(c) == Frame(body) + rest
    ensures ReadLength(c).1 == Ok(|body|)
    ensures Stream(ReadLength(c).0) == CRLF + body + rest
  {
    var line := Encode(LengthLine(|body|));
    var lr := Until(c, CRLF);
    assert lr.1 == Ok(line) && Stream(lr.0) == CRLF + body + rest by {
      LengthLineBytesNoCR(|body|);
      assert Stream(c) == line + (CRLF + (CRLF + body + rest));
      NoCRBeforeEnd(Stream(c), line, CRLF + (CRLF + body + rest));
      assert Stream(c) == line + CRLF + (CRLF + body + rest);
      ReadUntilFinds(c, CRLF, line, CRLF + body + rest);
    }
    assert StartsWith(line, CONTENT_LENGTH) && LengthOf(line) == Ok(|body|) by {
      LengthLineParses(|body|);
    }
  }

  /** The second header loop stops at an empty line. */
  lemma SkipHeaderAtEmptyLine(c: Conn, tail: Bytes)
    requires Stream(c) == CRLF + tail
    ensures SkipHeader(c).1 == Ok(())
    ensures Stream(SkipHeader(c).0) == tail
  {
    assert Stream(c) == [] + CRLF + tail;
    ReadUntilFinds(c, CRLF, [], tail);
  }

  /** Reading a frame returns exactly the body the server framed, and
      leaves exactly what followed it. */
  lemma FrameRoundTrip(c: Conn, body: Bytes, rest: Bytes)
    requires Stream(c) == Frame(body) + rest
    ensures ReadFrame(c).1 == Ok(body)
    ensures Stream(ReadFrame(c).0) == rest
  {
    ReadLengthOfFrame(c, body, rest);
    var c1 := ReadLength(c).0;
    SkipHeaderAtEmptyLine(c1, body + rest);
    var c2 := SkipHeader(c1).0;
    ReadBytesTakes(c2, |body|);
    assert Stream(c2)[..|body|] == body;
    assert Stream(c2)[|body|..] == rest;
  }

  // ---------------------------------------------------------------------
  // The handshake request
  // ---------------------------------------------------------------------

  /** An HTTP/1.0 Request-Line (RFC 1945, section 5.1): method, URI and
      version separated by single spaces, ended by CRLF. */
  function RequestLine(verb: string, uri: string, version: string): string {
    verb + " " + uri + " " + version + "\r\n"
  }

  const REQUEST_TEXT: string := RequestLine("GET", "/", "HTTP/1.0") + "Host: localhost\r\n" + "\r\n"

  /** Where the request's first line ends. */
  lemma FirstLineEnd()
    ensures Find(Encode(REQUEST_TEXT), CRLF) == 14
  {
    var t := REQUEST_TEXT;
    var e := Encode(t);
    var first := "GET / HTTP/1.0\r\n";
    assert t[..16] == first;
    assert OccursAt(e, CRLF, 14);
    forall k | 0 <= k < 14 ensures e[k] != 13 {
      assert e[k] as int == first[k] as int;
      assert k == 0 || k == 1 || k == 2 || k == 3 || k == 4 || k == 5 || k == 6
        || k == 7 || k == 8 || k == 9 || k == 10 || k == 11 || k == 12 || k == 13;
    }
    forall k | 0 <= k < 14 ensures !OccursAt(e, CRLF, k) {
      assert e[k..k + 2][0] == e[k];
    }
    FindIs(e, CRLF, 14);
  }

  /** A text without carriage returns. */
  predicate NoCR(s: string) {
    forall i :: 0 <= i < |s| ==> s[i] != '\r'
  }

  /** Two CRLF-terminated lines and the empty line: the first place a
      header could end is the final empty line. */
  lemma HeaderEndAfterTwoLines(a: string, b: string)
    requires IsAscii(a) && IsAscii(b) && NoCR(a) && NoCR(b) && |b| > 0
    ensures IsAscii(a + "\r\n" + b + "\r\n" + "\r\n")
    ensures Find(Encode(a + "\r\n" + b + "\r\n" + "\r\n"), HEADER_END) == |a| + |b| + 2
  {
    var t := a + "\r\n" + b + "\r\n" + "\r\n";
    var n := |a| + |b| + 2;
    assert IsAscii(t) by {
      forall i | 0 <= i < |t| ensures t[i] as int < 128 {
        if i < |a| { assert t[i] == a[i]; }
        else if |a| + 2 <= i < |a| + 2 + |b| { assert t[i] == b[i - |a| - 2]; }
      }
    }
    var e := Encode(t);
    assert e[n..] == HEADER_END by {
      assert t[n..] == "\r\n\r\n";
      forall j | 0 <= j < 4 ensures e[n..][j] == HEADER_END[j] {
        assert e[n + j] as int == t[n..][j] as int;
      }
    }
    forall k | 0 <= k < n ensures !OccursAt(e, HEADER_END, k) {
      if k < |a| {
        assert e[k] as int == a[k] as int;
      } else if k == |a| {
        assert e[k + 2] as int == b[0] as int;
      } else if k == |a| + 1 {
        assert e[k] == 10;
      } else {
        assert e[k] as int == b[k - |a| - 2] as int;
      }
      assert e[k..k + 4][0] == e[k] && e[k..k + 4][2] == e[k + 2];
    }
    FindIs(e, HEADER_END, n);
  }

  /** The request opens with its request line (RFC 1945, section 5.1) and
      ends with the empty line that closes an HTTP/1.0 header (section 4.1),
      the first place a header could end: the server reads the whole
      request as its header. */
  lemma RequestIsOneHeader()
    ensures IsAscii(REQUEST_TEXT)
    ensures Find(Encode(REQUEST_TEXT), CRLF) == |RequestLine("GET", "/", "HTTP/1.0")| - 2
    ensures Find(Encode(REQUEST_TEXT), HEADER_END) == |REQUEST_TEXT| - 4
  {
    FirstLineEnd();
    var a, b := "GET / HTTP/1.0", "Host: localhost";
    assert REQUEST_TEXT == a + "\r\n" + b + "\r\n" + "\r\n";
    assert IsAscii(a) && NoCR(a) by {
      forall k | 0 <= k < |a| ensures a[k] as int < 128 && a[k] != '\r' {
        assert k == 0 || k == 1 || k == 2 || k == 3 || k == 4 || k == 5 || k == 6
          || k == 7 || k == 8 || k == 9 || k == 10 || k == 11 || k == 12 || k == 13;
      }
    }
    assert IsAscii(b) && NoCR(b) by {
      forall k | 0 <= k < |b| ensures b[k] as int < 128 && b[k] != '\r' {
        assert k == 0 || k == 1 || k == 2 || k == 3 || k == 4 || k == 5 || k == 6
          || k == 7 || k == 8 || k == 9 || k == 10 || k == 11 || k == 12 || k == 13 || k == 14;
      }
    }
    HeaderEndAfterTwoLines(a, b);
  }

  // ---------------------------------------------------------------------
  // The buffer as an object
  // ---------------------------------------------------------------------

  class SocketBuffer {
    var buf: Bytes
    var incoming: seq<Option<Bytes>>
    var sent: Bytes

    function State(): Conn
      reads this
    {
      Conn(buf, incoming)
    }

    constructor (answers: seq<Option<Bytes>>)
      ensures buf == [] && incoming == answers && sent == []
    {
      buf, incoming, sent := [], answers, [];
    }

    method Drain() returns (r: Result<nat>)
      modifies this
      ensures (State(), r) == Refill(old(State()))
      ensures sent == old(sent)
    {
      if incoming == [] {
        return Err(IOError);
      }
      var data := incoming[0];
      incoming := incoming[1..];
      if data.None? {
        return Err(IOError);
      }
      buf := buf + data.value;
      r := Ok(|data.value|);
    }

    method ReadUntil(d: Bytes) returns (r: Result<Bytes>)
      modifies this
      ensures (State(), r) == Until(old(State()), d)
      ensures sent == old(sent)
    {
      ghost var c0 := State();
      while true
        invariant Until(State(), d) == Until(c0, d) && sent == old(sent)
        decreases |incoming|
      {
        var index := Find(buf, d);
        if index != -1 {
          r := Ok(buf[..index]);
          buf := buf[index + |d|..];
          return;
        }
        ghost var before := State();
        var n := Drain();
        if n.Err? {
          return Err(n.error);
        }
        UntilRefills(before, d);
      }
    }

    method ReadBytes(length: int) returns (r: Result<Bytes>)
      modifies this
      ensures (State(), r) == Take(old(State()), length)
      ensures sent == old(sent)
    {
      ghost var c0 := State();
      while length > |buf|
        invariant Take(State(), length) == Take(c0, length) && sent == old(sent)
        decreases |incoming|
      {
        var n := Drain();
        if n.Err? {
          return Err(n.error);
        }
      }
      var k := Cut(length, |buf|);
      r := Ok(buf[..k]);
      buf := buf[k..];
    }

    method Write(data: Bytes)
      modifies this
      ensures sent == old(sent) + data && State() == old(State())
    {
      sent := sent + data;
    }
  }

  /** The start of a recording: send the request, then skip the response
      header. */
  method Handshake(sock: SocketBuffer) returns (r: Result<Bytes>)
    modifies sock
    ensures sock.sent == old(sock.sent) + Encode(REQUEST_TEXT)
    ensures (sock.State(), r) == Until(old(sock.State()), HEADER_END)
  {
    RequestIsOneHeader();
    sock.Write(Encode(REQUEST_TEXT));
    r := sock.ReadUntil(HEADER_END);
  }

  /** One pass of the recorder loop: the length header, the rest of the
      header, then the body. */
  method ReadFrameFrom(sock: SocketBuffer) returns (r: Result<Bytes>)
    modifies sock
    ensures (sock.State(), r) == ReadFrame(old(sock.State()))
  {
    ghost var c0 := sock.State();
    var length: int;
    while true
      invariant ReadLength(sock.State()) == ReadLength(c0)
      decreases |sock.incoming|, |sock.buf|
    {
      var line := sock.ReadUntil(CRLF);
      if line.Err? {
        return Err(line.error);
      }
      if StartsWith(line.value, CONTENT_LENGTH) {
        var parsed := LengthOf(line.value);
        if parsed.Err? {
          return Err(parsed.error);
        }
        length := parsed.value;
        break;
      }
    }
    assert ReadLength(c0) == (sock.State(), Ok(length));
    ghost var c1 := sock.State();
    while true
      invariant SkipHeader(sock.State()) == SkipHeader(c1)
      decreases |sock.incoming|, |sock.buf|
    {
      var line := sock.ReadUntil(CRLF);
      if line.Err? {
        return Err(line.error);
      }
      if line.value == [] {
        break;
      }
    }
    assert SkipHeader(c1) == (sock.State(), Ok(()));
    r := sock.ReadBytes(length);
  }

  // ---------------------------------------------------------------------
  // Elements
  // ---------------------------------------------------------------------

  /** The locator keys the iOS driver forwards to the device. */
  const WDA_LOCATORS: set<string> := {"id", "name", "xpath", "text", "className", "value", "label"}

  class WDAElement {
    var kwargs: Kwargs
    var attrs: map<string, string>
    var desc: Option<string>
    var findElemInfo: Option<string>

    /** The attribute loop of `__init__` and the description it stores:
        `desc=<d>` for a truthy `desc` keyword, else the locator pairs. */
    constructor (kw: Kwargs)
      ensures kwargs == Keep(kw, WDA_LOCATORS)
      ensures attrs == Attrs(Drop(kw, WDA_LOCATORS))
      ensures desc == Some(Describe(DescAttr(attrs), kwargs))
      ensures findElemInfo == None
    {
      kwargs := kw;
      attrs := map[];
      desc := None;
      findElemInfo := None;
      new;
      for i := 0 to |kw|
        invariant kwargs == Keep(kw[..i], WDA_LOCATORS) + kw[i..]
        invariant attrs == Attrs(Drop(kw[..i], WDA_LOCATORS)) && desc == DescAttr(attrs)
        invariant findElemInfo == None
      {
        DeleteStep(kw, i, WDA_LOCATORS, kwargs);
        var k := |Keep(kw[..i], WDA_LOCATORS)|;
        var key, value := kw[i].0, kw[i].1;
        if key !in WDA_LOCATORS {
          SetAttr(key, value);
          // the entry named `key` is the first one not yet examined
          kwargs := kwargs[..k] + kwargs[k + 1..];
        }
      }
      assert kw[..|kw|] == kw;
      if Truthy(desc) {
        desc := Some("desc=" + desc.value);
      } else {
        desc := Some(Join(Pairs(kwargs), ", "));
      }
    }

    /** `setattr(self, key, value)`: a `desc` keyword is the description. */
    method SetAttr(key: string, value: string)
      modifies this
      ensures attrs == old(attrs)[key := value] && desc == DescAttr(attrs)
      ensures kwargs == old(kwargs) && findElemInfo == old(findElemInfo)
    {
      attrs := attrs[key := value];
      desc := DescAttr(attrs);
    }

    /** `WDAElement(**kwargs)`: no keywords, or no supported locator among
        them, is a ValueError. */
    static method Create(kw: Kwargs) returns (r: Result<WDAElement>)
      ensures r.Err? <==> SplitLocator(kw, WDA_LOCATORS).Err?
      ensures r.Err? ==> r.error == ValueError
      ensures r.Ok? ==> (fresh(r.value) && r.value.kwargs == SplitLocator(kw, WDA_LOCATORS).value.kwargs
        && r.value.attrs == SplitLocator(kw, WDA_LOCATORS).value.attrs
        && r.value.desc == Some(Describe(DescAttr(r.value.attrs), r.value.kwargs)))
    {
      if kw == [] {
        return Err(ValueError);
      }
      var e := new WDAElement(kw);
      if e.kwargs == [] {
        return Err(ValueError);
      }
      r := Ok(e);
    }

    /** `get_elements`: a failed lookup is an empty result when `empty` is
        set, else a NotFindElementError; a found one is logged. */
    method GetElements(empty: bool, lookup: Result<seq<string>>) returns (r: Result<seq<string>>)
      modifies this
      ensures kwargs == old(kwargs) && attrs == old(attrs) && desc == old(desc)
      ensures lookup.Err? ==> r == (if empty then Ok([]) else Err(NotFindElementError))
      ensures lookup.Err? ==> findElemInfo == old(findElemInfo)
      ensures lookup.Ok? ==> r == lookup && findElemInfo == Some("Find element: " + (if desc.Some? then desc.value else "None"))
    {
      if lookup.Err? {
        if !empty {
          return Err(NotFindElementError);
        }
        return Ok([]);
      }
      findElemInfo := Some("Find element: " + (if desc.Some? then desc.value else "None"));
      r := lookup;
    }
  }
}

/** The keyframe matcher behind the start-up duration measurement: an
    average-brightness image hash, the Hamming distance between hashes,
    the asymmetric best-frame search over a folder of extracted frames,
    frame extraction from the start and end windows of a recording, and
    the `frame_NNNNNN.jpg` naming that is parsed back into frame indices.

    An image is its gray-scale grid, already resized to the hash size;
    a recording is its sequence of frames; a folder listing is a sequence
    of named frames in listing order. */
module Duration {
  import opened Wrappers
  import opened Text

  /** Frames per second of the screen recording and the length of each
      search window, in seconds. */
  const FPS: nat := 45
  const FRAME_SECONDS: nat := 5
  /** Side of the square grid an image is resized to before hashing. */
  const HASH_SIZE: nat := 256
  /** Two distances closer than this are a near tie. */
  const NEAR_TIE: nat := 100

  type Grid = seq<seq<int>>
  type Hash = seq<int>

  predicate IsGrid(g: Grid, n: nat) {
    |g| == n && forall i :: 0 <= i < n ==> |g[i]| == n
  }

  function Abs(x: int): nat {
    if x < 0 then -x else x
  }

  // ---------------------------------------------------------------------
  // Average hash
  // ---------------------------------------------------------------------

  function RowSum(row: seq<int>): int {
    if row == [] then 0 else RowSum(row[..|row| - 1]) + row[|row| - 1]
  }

  function GridSum(g: Grid): int {
    if g == [] then 0 else GridSum(g[..|g| - 1]) + RowSum(g[|g| - 1])
  }

  /** The mean gray value of an n-by-n grid. */
  function Mean(g: Grid, n: nat): real
    requires n > 0
  {
    GridSum(g) as real / (n * n) as real
  }

  /** One hash bit: 1 when the pixel exceeds the mean `total / count`. */
  function Bit(px: int, total: int, count: nat): int {
    if px * count > total then 1 else 0
  }

  function RowBits(row: seq<int>, total: int, count: nat): (h: Hash)
    ensures |h| == |row|
  {
    if row == [] then []
    else RowBits(row[..|row| - 1], total, count) + [Bit(row[|row| - 1], total, count)]
  }

  function GridBits(g: Grid, total: int, count: nat): Hash {
    if g == [] then [] else GridBits(g[..|g| - 1], total, count) + RowBits(g[|g| - 1], total, count)
  }

  /** The average hash of an n-by-n gray grid, row by row. */
  function AverageHash(g: Grid, n: nat): Hash {
    GridBits(g, GridSum(g), n * n)
  }

  lemma BitMeaning(px: int, total: int, count: nat)
    requires count > 0
    ensures Bit(px, total, count) == 1 <==> px as real > total as real / count as real
    ensures Bit(px, total, count) == 0 || Bit(px, total, count) == 1
  {
    var m := total as real / count as real;
    assert m * count as real == total as real;
    assert (px * count) as real == px as real * count as real;
    if px as real > m {
      assert px as real * count as real > m * count as real;
    } else {
      assert px as real * count as real <= m * count as real;
    }
  }

  /** The hash computed by walking the grid row by row and comparing every
      pixel with the mean. */
  method CalculateHash(gray: Grid, n: nat) returns (hash: Hash)
    requires IsGrid(gray, n)
    ensures hash == AverageHash(gray, n)
  {
    var total := GridSum(gray);
    var count := n * n;
    var mean: real := if n > 0 then total as real / count as real else 0.0;
    hash := [];
    for i := 0 to n
      invariant hash == GridBits(gray[..i], total, count)
    {
      for j := 0 to n
        invariant hash == GridBits(gray[..i], total, count) + RowBits(gray[i][..j], total, count)
      {
        BitMeaning(gray[i][j], total, count);
        if gray[i][j] as real > mean {
          hash := hash + [1];
        } else {
          hash := hash + [0];
        }
        assert gray[i][..j + 1][..j] == gray[i][..j];
      }
      assert gray[i][..n] == gray[i];
      assert gray[..i + 1][..i] == gray[..i];
    }
    assert gray[..n] == gray;
  }

  lemma {:induction false} RowBitsAt(row: seq<int>, total: int, count: nat, j: nat)
    requires j < |row|
    ensures RowBits(row, total, count)[j] == Bit(row[j], total, count)
  {
    if j < |row| - 1 {
      RowBitsAt(row[..|row| - 1], total, count, j);
    }
  }

  lemma {:induction false} GridBitsAt(g: Grid, n: nat, total: int, count: nat, i: nat, j: nat)
    requires forall r :: 0 <= r < |g| ==> |g[r]| == n
    requires i < |g| && j < n
    ensures |GridBits(g, total, count)| == |g| * n
    ensures i * n + j < |g| * n
    ensures GridBits(g, total, count)[i * n + j] == Bit(g[i][j], total, count)
  {
    var p := g[..|g| - 1];
    GridBitsLength(p, n, total, count);
    assert |g| * n == |p| * n + n;
    if i < |p| {
      GridBitsAt(p, n, total, count, i, j);
    } else {
      assert i * n == |p| * n;
      RowBitsAt(g[|g| - 1], total, count, j);
    }
  }

  lemma {:induction false} GridBitsLength(g: Grid, n: nat, total: int, count: nat)
    requires forall r :: 0 <= r < |g| ==> |g[r]| == n
    ensures |GridBits(g, total, count)| == |g| * n
  {
    if g != [] {
      GridBitsLength(g[..|g| - 1], n, total, count);
      assert |g| * n == (|g| - 1) * n + n;
    }
  }

  /** The hash has one 0/1 entry per pixel, in row-major order, and the
      entry for pixel (i, j) is 1 exactly when that pixel is brighter than
      the image's mean. */
  lemma HashBitIsAboveMean(g: Grid, n: nat, i: nat, j: nat)
    requires IsGrid(g, n) && i < n && j < n
    ensures |AverageHash(g, n)| == n * n
    ensures i * n + j < n * n
    ensures AverageHash(g, n)[i * n + j] == (if g[i][j] as real > Mean(g, n) then 1 else 0)
  {
    GridBitsAt(g, n, GridSum(g), n * n, i, j);
    BitMeaning(g[i][j], GridSum(g), n * n);
  }

  lemma {:induction false} GridBitsBinary(g: Grid, total: int, count: nat)
    ensures forall k :: 0 <= k < |GridBits(g, total, count)| ==>
      GridBits(g, total, count)[k] == 0 || GridBits(g, total, count)[k] == 1
  {
    if g != [] {
      var row := g[|g| - 1];
      GridBitsBinary(g[..|g| - 1], total, count);
      forall j | 0 <= j < |row| ensures RowBits(row, total, count)[j] == 0 || RowBits(row, total, count)[j] == 1 {
        RowBitsAt(row, total, count, j);
      }
    }
  }

  /** Every hash entry is 0 or 1. */
  lemma HashIsBinary(g: Grid, n: nat)
    ensures forall k :: 0 <= k < |AverageHash(g, n)| ==> AverageHash(g, n)[k] == 0 || AverageHash(g, n)[k] == 1
  {
    GridBitsBinary(g, GridSum(g), n * n);
  }

  lemma {:induction false} RowSumConstant(row: seq<int>, c: int)
    requires forall j :: 0 <= j < |row| ==> row[j] == c
    ensures RowSum(row) == c * |row|
  {
    if row != [] {
      RowSumConstant(row[..|row| - 1], c);
    }
  }

  lemma {:induction false} GridSumConstant(g: Grid, n: nat, c: int)
    requires forall i :: 0 <= i < |g| ==> |g[i]| == n
    requires forall i, j :: 0 <= i < |g| && 0 <= j < |g[i]| ==> g[i][j] == c
    ensures GridSum(g) == c * n * |g|
  {
    if g != [] {
      GridSumConstant(g[..|g| - 1], n, c);
      RowSumConstant(g[|g| - 1], c);
      assert c * n * |g| == c * n * (|g| - 1) + c * n;
    }
  }

  lemma {:induction false} RowBitsZero(row: seq<int>, total: int, count: nat)
    requires forall j :: 0 <= j < |row| ==> row[j] * count <= total
    ensures forall j :: 0 <= j < |row| ==> RowBits(row, total, count)[j] == 0
  {
    if row != [] {
      RowBitsZero(row[..|row| - 1], total, count);
    }
  }

  lemma {:induction false} GridBitsZero(g: Grid, total: int, count: nat)
    requires forall i, j :: 0 <= i < |g| && 0 <= j < |g[i]| ==> g[i][j] * count <= total
    ensures forall k :: 0 <= k < |GridBits(g, total, count)| ==> GridBits(g, total, count)[k] == 0
  {
    if g != [] {
      GridBitsZero(g[..|g| - 1], total, count);
      RowBitsZero(g[|g| - 1], total, count);
    }
  }

  /** No pixel of a constant image is brighter than the mean, so its hash
      is all zeros. */
  lemma ConstantImageHashesToZeros(g: Grid, n: nat, c: int)
    requires IsGrid(g, n)
    requires forall i, j :: 0 <= i < n && 0 <= j < n ==> g[i][j] == c
    ensures |AverageHash(g, n)| == n * n
    ensures forall k :: 0 <= k < |AverageHash(g, n)| ==> AverageHash(g, n)[k] == 0
  {
    GridSumConstant(g, n, c);
    GridBitsLength(g, n, GridSum(g), n * n);
    assert c * n * n == c * (n * n);
    GridBitsZero(g, GridSum(g), n * n);
  }

  // ---------------------------------------------------------------------
  // Hamming distance
  // ---------------------------------------------------------------------

  /** The number of positions where two hashes differ, over the shorter
      of the two. */
  function HammingDistance(a: Hash, b: Hash): (d: nat)
    ensures d <= |a| && d <= |b|
  {
    if a == [] || b == [] then 0
    else (if a[0] != b[0] then 1 else 0) + HammingDistance(a[1..], b[1..])
  }

  function Min(x: nat, y: nat): nat {
    if x <= y then x else y
  }

  lemma {:induction false} HammingSelf(a: Hash)
    ensures HammingDistance(a, a) == 0
  {
    if a != [] {
      HammingSelf(a[1..]);
    }
  }

  lemma {:induction false} HammingSymmetric(a: Hash, b: Hash)
    ensures HammingDistance(a, b) == HammingDistance(b, a)
  {
    if a != [] && b != [] {
      HammingSymmetric(a[1..], b[1..]);
    }
  }

  /** The distance is zero exactly when the hashes agree on their common
      length. */
  lemma {:induction false} HammingZeroIff(a: Hash, b: Hash)
    ensures HammingDistance(a, b) == 0 <==> a[..Min(|a|, |b|)] == b[..Min(|a|, |b|)]
  {
    var m := Min(|a|, |b|);
    if a != [] && b != [] {
      HammingZeroIff(a[1..], b[1..]);
      assert a[1..][..m - 1] == a[..m][1..];
      assert b[1..][..m - 1] == b[..m][1..];
      if a[..m] == b[..m] {
        assert a[0] == a[..m][0];
      }
    }
  }

  // ---------------------------------------------------------------------
  // Image difference with optional precomputed hashes
  // ---------------------------------------------------------------------

  /** One image's hash: the precomputed hash when non-empty, else the hash
      of the image at the path. An absent path is a TypeError
      (`os.path.exists(None)`), one that does not exist a
      FileNotFoundError. */
  function ImageHash(files: map<string, Grid>, path: Option<string>, hash: Hash): (r: Result<Hash>)
    ensures hash != [] ==> r == Ok(hash)
    ensures hash == [] && path.None? ==> r == Err(TypeError)
    ensures hash == [] && path.Some? && path.value !in files ==> r == Err(FileNotFoundError)
    ensures hash == [] && path.Some? && path.value in files ==> r == Ok(AverageHash(files[path.value], HASH_SIZE))
  {
    if hash != [] then Ok(hash)
    else if path.None? then Err(TypeError)
    else if path.value in files then Ok(AverageHash(files[path.value], HASH_SIZE))
    else Err(FileNotFoundError)
  }

  /** `get_image_diff`: the first image is resolved before the second, and
      the first failure is the error; otherwise the Hamming distance of the
      two hashes. */
  function ImageDiff(files: map<string, Grid>, path1: Option<string>, path2: Option<string>,
                     hash1: Hash, hash2: Hash): Result<nat>
  {
    var h1 :- ImageHash(files, path1, hash1);
    var h2 :- ImageHash(files, path2, hash2);
    Ok(HammingDistance(h1, h2))
  }

  /** Two images read from existing paths: the distance is symmetric in the
      two paths, and a path compared with itself is at distance 0. */
  lemma ImageDiffOfPaths(files: map<string, Grid>, p1: string, p2: string)
    requires p1 in files && p2 in files
    ensures ImageDiff(files, Some(p1), Some(p2), [], []).Ok?
    ensures ImageDiff(files, Some(p1), Some(p2), [], []) == ImageDiff(files, Some(p2), Some(p1), [], [])
    ensures ImageDiff(files, Some(p1), Some(p1), [], []) == Ok(0)
  {
    HammingSymmetric(AverageHash(files[p1], HASH_SIZE), AverageHash(files[p2], HASH_SIZE));
    HammingSelf(AverageHash(files[p1], HASH_SIZE));
  }

  /** The distance between two images, each given by a precomputed hash
      (used only when non-empty) or else by a path into `files`. */
  method GetImageDiff(files: map<string, Grid>, path1: Option<string>, path2: Option<string>,
                      hash1: Hash, hash2: Hash) returns (r: Result<nat>)
    requires forall p :: p in files ==> IsGrid(files[p], HASH_SIZE)
    ensures r == ImageDiff(files, path1, path2, hash1, hash2)
    ensures r.Ok? ==> r.value <= HASH_SIZE * HASH_SIZE || (hash1 != [] && r.value <= |hash1|)
  {
    var h1: Hash;
    if hash1 != [] {
      h1 := hash1;
    } else if path1.None? {
      return Err(TypeError);
    } else if path1.value in files {
      h1 := CalculateHash(files[path1.value], HASH_SIZE);
      HashBitIsAboveMean(files[path1.value], HASH_SIZE, 0, 0);
    } else {
      return Err(FileNotFoundError);
    }
    var h2: Hash;
    if hash2 != [] {
      h2 := hash2;
    } else if path2.None? {
      return Err(TypeError);
    } else if path2.value in files {
      h2 := CalculateHash(files[path2.value], HASH_SIZE);
      HashBitIsAboveMean(files[path2.value], HASH_SIZE, 0, 0);
    } else {
      return Err(FileNotFoundError);
    }
    r := Ok(HammingDistance(h1, h2));
  }

  // ---------------------------------------------------------------------
  // Best-frame search
  // ---------------------------------------------------------------------

  /** One entry of the frame folder: its file name and its image. */
  datatype Frame = Frame(name: string, gray: Grid)

  /** Every `.jpg` entry of the listing is an image of the hash size;
      other entries (such as sub-directories) are never opened. */
  predicate ListingOk(frames: seq<Frame>) {
    forall k :: 0 <= k < |frames| && EndsWith(frames[k].name, ".jpg") ==> IsGrid(frames[k].gray, HASH_SIZE)
  }

  /** Listing positions below this are searched for the start frame;
      positions at or above it for the stop frame. */
  function StartFrameNum(count: nat, isStart: bool): nat {
    if count <= FRAME_SECONDS * FPS * 2 then (if isStart then count else 0)
    else FRAME_SECONDS * FPS
  }

  predicate InWindow(count: nat, i: nat, isStart: bool) {
    if isStart then i < StartFrameNum(count, true) else i >= StartFrameNum(count, false)
  }

  /** A short listing is searched in full by both searches; a long one is
      split at FRAME_SECONDS * FPS frames. */
  lemma SearchWindows(count: nat, i: nat)
    requires i < count
    ensures count <= 450 ==> InWindow(count, i, true) && InWindow(count, i, false)
    ensures count > 450 ==> (InWindow(count, i, true) <==> i < 225)
    ensures count > 450 ==> (InWindow(count, i, false) <==> i >= 225)
  {
  }

  /** The distance of listing entry `i` to the reference hash when it is a
      candidate of the search (in the window and a `.jpg`), else None. */
  function Score(frames: seq<Frame>, ref: Hash, isStart: bool, i: nat): Option<nat>
    requires i < |frames|
  {
    if InWindow(|frames|, i, isStart) && EndsWith(frames[i].name, ".jpg") then
      Some(HammingDistance(AverageHash(frames[i].gray, HASH_SIZE), ref))
    else None
  }

  function Scores(frames: seq<Frame>, ref: Hash, isStart: bool): (s: seq<Option<nat>>)
    ensures |s| == |frames|
  {
    seq(|frames|, i requires 0 <= i < |frames| => Score(frames, ref, isStart, i))
  }

  predicate HasCandidate(s: seq<Option<nat>>) {
    exists k :: 0 <= k < |s| && s[k].Some?
  }

  lemma HasCandidateSplit(s: seq<Option<nat>>)
    requires s != []
    ensures HasCandidate(s) <==> HasCandidate(s[..|s| - 1]) || s[|s| - 1].Some?
  {
    if HasCandidate(s) && !s[|s| - 1].Some? {
      var k :| 0 <= k < |s| && s[k].Some?;
      assert s[..|s| - 1][k].Some?;
    }
    if HasCandidate(s[..|s| - 1]) {
      var k :| 0 <= k < |s| - 1 && s[..|s| - 1][k].Some?;
      assert s[k].Some?;
    }
  }

  /** The smallest candidate distance. */
  function MinScore(s: seq<Option<nat>>): (m: nat)
    requires HasCandidate(s)
    ensures exists k :: 0 <= k < |s| && s[k] == Some(m)
    ensures forall k :: 0 <= k < |s| && s[k].Some? ==> m <= s[k].value
  {
    HasCandidateSplit(s);
    var p := s[..|s| - 1];
    var last := s[|s| - 1];
    if !HasCandidate(p) then
      assert forall k :: 0 <= k < |p| ==> !p[k].Some?;
      last.value
    else
      var m := MinScore(p);
      assert forall k :: 0 <= k < |p| ==> p[k] == s[k];
      if last.Some? && last.value < m then last.value else m
  }

  /** The first candidate whose distance is below `bound`. */
  function FirstBelow(s: seq<Option<nat>>, bound: int): (r: Option<nat>)
    ensures r.Some? ==> r.value < |s| && s[r.value].Some? && s[r.value].value < bound
    ensures r.Some? ==> forall j :: 0 <= j < r.value && s[j].Some? ==> s[j].value >= bound
    ensures r.None? ==> forall j :: 0 <= j < |s| && s[j].Some? ==> s[j].value >= bound
  {
    if s == [] then None
    else
      var p := s[..|s| - 1];
      var r := FirstBelow(p, bound);
      assert forall k :: 0 <= k < |p| ==> p[k] == s[k];
      if r.Some? then r
      else if s[|s| - 1].Some? && s[|s| - 1].value < bound then Some(|s| - 1)
      else None
  }

  // ---- start search ----

  /** The best match so far: none yet (distance infinity), or a listing
      index and its distance. */
  datatype Best = NoBest | Best(index: nat, dist: nat)

  /** The start search's replacement test: at most the best distance, or
      within a near tie of it. */
  predicate StartAccepts(b: Best, d: nat) {
    b.NoBest? || d <= b.dist || Abs(b.dist - d) < NEAR_TIE
  }

  /** The start search as a left fold over the scored listing. */
  function StartScan(s: seq<Option<nat>>): (b: Best)
    ensures b.Best? ==> b.index < |s| && s[b.index] == Some(b.dist)
  {
    if s == [] then NoBest
    else
      var b := StartScan(s[..|s| - 1]);
      match s[|s| - 1]
      case None => b
      case Some(d) => if StartAccepts(b, d) then Best(|s| - 1, d) else b
  }

  /** Accepting means being less than a near tie above the best so far. */
  lemma StartAcceptsNear(b: Best, d: nat)
    ensures StartAccepts(b, d) <==> b.NoBest? || d < b.dist + NEAR_TIE
  {
  }

  /** The start search finds nothing exactly when there is no candidate;
      otherwise it returns a candidate, and every later candidate is at
      least a near tie further from the reference (so the last accepted
      candidate wins). */
  lemma {:induction false} StartScanResult(s: seq<Option<nat>>)
    ensures StartScan(s).NoBest? <==> !HasCandidate(s)
    ensures StartScan(s).Best? ==>
      forall j :: StartScan(s).index < j < |s| && s[j].Some? ==> s[j].value >= StartScan(s).dist + NEAR_TIE
  {
    if s != [] {
      var p := s[..|s| - 1];
      StartScanResult(p);
      HasCandidateSplit(s);
      assert forall k :: 0 <= k < |p| ==> p[k] == s[k];
      match s[|s| - 1]
      case None =>
      case Some(d) =>
        StartAcceptsNear(StartScan(p), d);
    }
  }

  // ---- stop search ----

  /** An entry of `end_list`: a strict improvement, by listing index. */
  datatype Rec = Rec(index: nat, dist: nat)

  /** The strict improvements met while scanning the listing, in order. */
  function Records(s: seq<Option<nat>>): (r: seq<Rec>)
    ensures forall k :: 0 <= k < |r| ==> r[k].index < |s| && s[r[k].index] == Some(r[k].dist)
  {
    if s == [] then []
    else
      var r := Records(s[..|s| - 1]);
      match s[|s| - 1]
      case None => r
      case Some(d) => if r == [] || d < r[|r| - 1].dist then r + [Rec(|s| - 1, d)] else r
  }

  /** The records within a near tie of `best`, in order. */
  function NearRecords(r: seq<Rec>, best: nat): (near: seq<Rec>)
    ensures forall x :: x in near ==> x in r
  {
    if r == [] then []
    else NearRecords(r[..|r| - 1], best) + (if Abs(best - r[|r| - 1].dist) < NEAR_TIE then [r[|r| - 1]] else [])
  }

  /** The stop search: the first record within a near tie of the final
      best distance; IndexError when there is none. */
  function StopPick(s: seq<Option<nat>>): (p: Result<nat>)
    ensures p.Ok? ==> p.value < |s| && s[p.value].Some?
  {
    var r := Records(s);
    var near := if r == [] then [] else NearRecords(r, r[|r| - 1].dist);
    if near == [] then Err(IndexError)
    else
      assert near[0] in r;
      Ok(near[0].index)
  }

  /** The first record whose distance is below `bound`, by listing index. */
  function FirstRecordBelow(r: seq<Rec>, bound: int): Option<nat> {
    if r == [] then None
    else if FirstRecordBelow(r[..|r| - 1], bound).Some? then FirstRecordBelow(r[..|r| - 1], bound)
    else if r[|r| - 1].dist < bound then Some(r[|r| - 1].index)
    else None
  }

  /** `end_list` is strictly increasing in listing index and strictly
      decreasing in distance. */
  lemma {:induction false} RecordsImprove(s: seq<Option<nat>>)
    ensures forall a, b :: 0 <= a < b < |Records(s)| ==>
      Records(s)[a].index < Records(s)[b].index && Records(s)[a].dist > Records(s)[b].dist
  {
    if s != [] {
      RecordsImprove(s[..|s| - 1]);
    }
  }

  /** `end_list` is empty exactly when there is no candidate. */
  lemma {:induction false} RecordsNonEmpty(s: seq<Option<nat>>)
    ensures Records(s) != [] <==> HasCandidate(s)
  {
    if s != [] {
      RecordsNonEmpty(s[..|s| - 1]);
      HasCandidateSplit(s);
    }
  }

  /** The last distance of `end_list` is the minimum candidate distance. */
  lemma {:induction false} RecordsEndAtMinimum(s: seq<Option<nat>>)
    requires HasCandidate(s)
    ensures Records(s) != [] && Records(s)[|Records(s)| - 1].dist == MinScore(s)
  {
    RecordsNonEmpty(s);
    var r := Records(s);
    var last := r[|r| - 1];
    assert last.dist <= MinScore(s) by {
      RecordsImprove(s);
      var k :| 0 <= k < |s| && s[k] == Some(MinScore(s));
      RecordBelowCandidate(s, k);
    }
  }

  /** Every candidate is at least the last record's distance. */
  lemma {:induction false} RecordBelowCandidate(s: seq<Option<nat>>, k: nat)
    requires k < |s| && s[k].Some?
    ensures Records(s) != [] && Records(s)[|Records(s)| - 1].dist <= s[k].value
  {
    var p := s[..|s| - 1];
    var rp := Records(p);
    if k < |s| - 1 {
      assert p[k] == s[k];
      RecordBelowCandidate(p, k);
    }
  }

  /** The first record below any bound is the first candidate below it:
      a candidate below every earlier one is itself a record. */
  lemma {:induction false} RecordsFirstBelow(s: seq<Option<nat>>, bound: int)
    ensures FirstRecordBelow(Records(s), bound) == FirstBelow(s, bound)
  {
    if s != [] {
      var p := s[..|s| - 1];
      RecordsFirstBelow(p, bound);
      if s[|s| - 1].Some? {
        RecordsFirstBelowStep(s, bound);
      }
    }
  }

  /** The step of `RecordsFirstBelow` for a last entry that is a candidate. */
  lemma RecordsFirstBelowStep(s: seq<Option<nat>>, bound: int)
    requires s != [] && s[|s| - 1].Some?
    requires FirstRecordBelow(Records(s[..|s| - 1]), bound) == FirstBelow(s[..|s| - 1], bound)
    ensures FirstRecordBelow(Records(s), bound) == FirstBelow(s, bound)
  {
    var p := s[..|s| - 1];
    var rp := Records(p);
    var d := s[|s| - 1].value;
    if rp == [] || d < rp[|rp| - 1].dist {
      assert Records(s) == rp + [Rec(|s| - 1, d)];
      assert (rp + [Rec(|s| - 1, d)])[..|rp|] == rp;
    } else {
      assert Records(s) == rp;
      if FirstBelow(p, bound).None? {
        RecordNotBelow(p, bound);
      }
    }
  }

  /** With no candidate below `bound`, no record is below it either. */
  lemma RecordNotBelow(s: seq<Option<nat>>, bound: int)
    requires FirstBelow(s, bound).None? && Records(s) != []
    ensures Records(s)[|Records(s)| - 1].dist >= bound
  {
    var l := Records(s)[|Records(s)| - 1];
    assert s[l.index] == Some(l.dist);
  }

  lemma {:induction false} NearRecordsFirst(r: seq<Rec>, best: nat)
    requires forall k :: 0 <= k < |r| ==> r[k].dist >= best
    ensures NearRecords(r, best) != [] <==> FirstRecordBelow(r, best + NEAR_TIE).Some?
    ensures NearRecords(r, best) != [] ==> NearRecords(r, best)[0].index == FirstRecordBelow(r, best + NEAR_TIE).value
  {
    if r != [] {
      NearRecordsFirst(r[..|r| - 1], best);
    }
  }

  /** The stop frame is the first candidate within a near tie of the
      minimum distance; with no candidate the search raises IndexError. */
  lemma StopPickIsFirstNearMinimum(s: seq<Option<nat>>)
    ensures !HasCandidate(s) ==> StopPick(s) == Err(IndexError)
    ensures HasCandidate(s) ==> FirstBelow(s, MinScore(s) + NEAR_TIE).Some?
    ensures HasCandidate(s) ==> StopPick(s) == Ok(FirstBelow(s, MinScore(s) + NEAR_TIE).value)
  {
    RecordsNonEmpty(s);
    if HasCandidate(s) {
      RecordsEndAtMinimum(s);
      var r := Records(s);
      var best := r[|r| - 1].dist;
      MinScoreIsBelowNearTie(s);
      RecordsAtLeastLast(s);
      NearRecordsFirst(r, best);
      RecordsFirstBelow(s, best + NEAR_TIE);
    }
  }

  lemma MinScoreIsBelowNearTie(s: seq<Option<nat>>)
    requires HasCandidate(s)
    ensures FirstBelow(s, MinScore(s) + NEAR_TIE).Some?
  {
    var k := MinScoreAt(s);
    FirstBelowFinds(s, MinScore(s) + NEAR_TIE, k);
  }

  /** A position holding the minimum distance. */
  lemma MinScoreAt(s: seq<Option<nat>>) returns (k: nat)
    requires HasCandidate(s)
    ensures k < |s| && s[k] == Some(MinScore(s))
  {
    k :| 0 <= k < |s| && s[k] == Some(MinScore(s));
  }

  /** A candidate below the bound means the search finds one. */
  lemma FirstBelowFinds(s: seq<Option<nat>>, bound: int, k: nat)
    requires k < |s| && s[k].Some? && s[k].value < bound
    ensures FirstBelow(s, bound).Some?
  {
  }

  lemma RecordsAtLeastLast(s: seq<Option<nat>>)
    requires Records(s) != []
    ensures forall k :: 0 <= k < |Records(s)| ==> Records(s)[k].dist >= Records(s)[|Records(s)| - 1].dist
  {
    RecordsImprove(s);
  }

  lemma StartScanStep(s: seq<Option<nat>>, i: nat)
    requires i < |s|
    ensures StartScan(s[..i + 1]) == match s[i]
      case None => StartScan(s[..i])
      case Some(d) => if StartAccepts(StartScan(s[..i]), d) then Best(i, d) else StartScan(s[..i])
  {
    assert s[..i + 1][..i] == s[..i];
  }

  /** The distance of the last record: the stop search's best distance. */
  function LastDist(records: seq<Rec>): Option<nat> {
    if records == [] then None else Some(records[|records| - 1].dist)
  }

  /** A strict improvement on the last record is recorded. */
  lemma RecordsAdd(s: seq<Option<nat>>, i: nat, d: nat)
    requires i < |s| && s[i] == Some(d)
    requires LastDist(Records(s[..i])).None? || d < LastDist(Records(s[..i])).value
    ensures Records(s[..i + 1]) == Records(s[..i]) + [Rec(i, d)]
  {
    assert s[..i + 1][..i] == s[..i];
  }

  /** A non-candidate, or a candidate no better than the last record,
      leaves the records as they are. */
  lemma RecordsKeep(s: seq<Option<nat>>, i: nat)
    requires i < |s|
    requires s[i].None? || (LastDist(Records(s[..i])).Some? && s[i].value >= LastDist(Records(s[..i])).value)
    ensures Records(s[..i + 1]) == Records(s[..i])
  {
    assert s[..i + 1][..i] == s[..i];
  }

  /** The test both scanning loops apply to listing entry `i`: inside the
      searched window and a `.jpg`, it is hashed and compared with the
      reference. */
  method ScoreCandidate(frames: seq<Frame>, refHash: Hash, isStart: bool, i: nat) returns (distance: Option<nat>)
    requires ListingOk(frames) && i < |frames|
    ensures distance == Scores(frames, refHash, isStart)[i]
  {
    var inWindow := if isStart then i < StartFrameNum(|frames|, true) else i >= StartFrameNum(|frames|, false);
    if inWindow && EndsWith(frames[i].name, ".jpg") {
      var h := CalculateHash(frames[i].gray, HASH_SIZE);
      distance := Some(HammingDistance(h, refHash));
    } else {
      distance := None;
    }
  }

  /** The scanning loop of `find_best_frame` for the start frame: every
      candidate at most the best distance, or within a near tie of it,
      becomes the best match. */
  method StartSearch(frames: seq<Frame>, refHash: Hash) returns (bestMatch: Option<string>, bestDistance: Option<nat>)
    requires ListingOk(frames)
    ensures match StartScan(Scores(frames, refHash, true))
      case NoBest => bestMatch.None? && bestDistance.None?
      case Best(k, d) => k < |frames| && bestMatch == Some(frames[k].name) && bestDistance == Some(d)
  {
    ghost var s := Scores(frames, refHash, true);
    bestMatch := None;
    bestDistance := None;
    for i := 0 to |frames|
      invariant match StartScan(s[..i])
        case NoBest => bestMatch.None? && bestDistance.None?
        case Best(k, d) => k < i && bestMatch == Some(frames[k].name) && bestDistance == Some(d)
    {
      StartScanStep(s, i);
      var candidate := ScoreCandidate(frames, refHash, true, i);
      assert s[i] == candidate;
      if candidate.Some? {
        var distance := candidate.value;
        if bestDistance.None? || distance <= bestDistance.value || Abs(bestDistance.value - distance) < NEAR_TIE {
          bestMatch := Some(frames[i].name);
          bestDistance := Some(distance);
        }
      }
    }
    assert s[..|frames|] == s;
  }

  /** The scanning loop of `find_best_frame` for the stop frame: only a
      strict improvement becomes the best match, and each one is recorded
      in `end_list`. */
  method StopSearch(frames: seq<Frame>, refHash: Hash) returns (bestDistance: Option<nat>, endList: seq<Rec>)
    requires ListingOk(frames)
    ensures endList == Records(Scores(frames, refHash, false))
    ensures bestDistance == LastDist(endList)
  {
    ghost var s := Scores(frames, refHash, false);
    bestDistance := None;
    endList := [];
    for i := 0 to |frames|
      invariant endList == Records(s[..i])
      invariant bestDistance == LastDist(endList)
    {
      var candidate := ScoreCandidate(frames, refHash, false, i);
      if candidate.Some? {
        var distance := candidate.value;
        if bestDistance.None? || distance < bestDistance.value {
          RecordsAdd(s, i, distance);
          bestDistance := Some(distance);
          endList := endList + [Rec(i, distance)];
        } else {
          RecordsKeep(s, i);
        }
      } else {
        RecordsKeep(s, i);
      }
    }
    assert s[..|frames|] == s;
  }

  /** The selection loop of the stop search: the records within a near
      tie of the best distance, in order. */
  method NearTies(endList: seq<Rec>, bestDistance: Option<nat>) returns (bestMatchList: seq<Rec>)
    ensures bestDistance.Some? ==> bestMatchList == NearRecords(endList, bestDistance.value)
    ensures bestDistance.None? ==> bestMatchList == []
  {
    bestMatchList := [];
    for k := 0 to |endList|
      invariant bestDistance.Some? ==> bestMatchList == NearRecords(endList[..k], bestDistance.value)
      invariant bestDistance.None? ==> bestMatchList == []
    {
      assert endList[..k + 1][..k] == endList[..k];
      if bestDistance.Some? && Abs(bestDistance.value - endList[k].dist) < NEAR_TIE {
        bestMatchList := bestMatchList + [endList[k]];
      }
    }
    assert endList[..|endList|] == endList;
  }

  /** `find_best_frame`: hashes the reference and every candidate frame.
      The start search returns the name of the last accepted candidate
      (None when there is none); the stop search returns the name of its
      pick, or IndexError. */
  method FindBestFrame(reference: Grid, frames: seq<Frame>, isStart: bool) returns (r: Result<Option<string>>)
    requires IsGrid(reference, HASH_SIZE)
    requires ListingOk(frames)
    ensures isStart ==> (
      var b := StartScan(Scores(frames, AverageHash(reference, HASH_SIZE), true));
      r == Ok(if b.NoBest? then None else Some(frames[b.index].name)))
    ensures !isStart ==>
      var p := StopPick(Scores(frames, AverageHash(reference, HASH_SIZE), false));
      r == (if p.Err? then Err(p.error) else Ok(Some(frames[p.value].name)))
  {
    var refHash := CalculateHash(reference, HASH_SIZE);
    if isStart {
      var bestMatch, _ := StartSearch(frames, refHash);
      return Ok(bestMatch);
    }
    var bestDistance, endList := StopSearch(frames, refHash);
    var bestMatchList := NearTies(endList, bestDistance);
    if bestMatchList == [] {
      return Err(IndexError);
    }
    assert bestMatchList[0] in endList;
    r := Ok(Some(frames[bestMatchList[0].index].name));
  }

  // ---------------------------------------------------------------------
  // Frame extraction and naming
  // ---------------------------------------------------------------------

  /** Python's `int()` on a float: truncation toward zero. */
  function Trunc(x: real): int {
    if x >= 0.0 then x.Floor else -((-x).Floor)
  }

  /** The frames kept by extraction: those below `endFrame` and those in
      [endStart, total). */
  datatype Window = Window(endFrame: int, endStart: int, total: int) {
    predicate Selects(n: int) {
      (0 <= n < endFrame) || (endStart <= n < total)
    }
  }

  /** The two windows for a recording of `total` frames at `fps` frames
      per second: the first `startDur` seconds and the last `endDur`
      seconds, the latter capped at the whole recording. A zero frame rate
      is a ZeroDivisionError. */
  function FrameWindow(fps: real, total: int, startDur: real, endDur: real): Result<Window> {
    if fps == 0.0 then Err(ZeroDivisionError)
    else
      var totalDuration := total as real / fps;
      var e := if endDur > totalDuration then totalDuration else endDur;
      Ok(Window(Trunc(fps * startDur), total - Trunc(fps * e), total))
  }

  /** A recording no longer than the end window is extracted in full. */
  lemma ShortRecordingFullyExtracted(fps: real, total: nat, startDur: real, endDur: real, n: int)
    requires fps > 0.0 && endDur * fps >= total as real && 0 <= n < total
    ensures FrameWindow(fps, total, startDur, endDur).Ok?
    ensures FrameWindow(fps, total, startDur, endDur).value.Selects(n)
  {
    var totalDuration := total as real / fps;
    assert fps * totalDuration == total as real;
    if endDur > totalDuration {
    } else {
      assert endDur * fps <= totalDuration * fps;
    }
  }

  /** With the default rate and windows, a recording of at least 225
      frames keeps exactly its first 225 and its last 225 frames. */
  lemma DefaultWindows(total: nat, n: int)
    requires total >= FRAME_SECONDS * FPS
    ensures FrameWindow(FPS as real, total, FRAME_SECONDS as real, FRAME_SECONDS as real).Ok?
    ensures FrameWindow(FPS as real, total, FRAME_SECONDS as real, FRAME_SECONDS as real).value.Selects(n)
      <==> (0 <= n < 225 || total - 225 <= n < total)
  {
    assert 45.0 * 5.0 == 225.0;
    assert total as real / 45.0 >= 5.0;
  }

  /** A written frame: its file name and image. */
  datatype Written = Written(name: string, image: Grid)

  /** The file name of frame `n`. */
  function FrameName(n: nat): string {
    "frame_" + ZeroPad(n, 6) + ".jpg"
  }

  /** The files extraction writes for a recording, in frame order. */
  function Extracted(video: seq<Grid>, w: Window): seq<Written> {
    if video == [] then []
    else
      var n := |video| - 1;
      Extracted(video[..n], w) + (if w.Selects(n) then [Written(FrameName(n), video[n])] else [])
  }

  lemma ExtractedStep(video: seq<Grid>, w: Window, c: nat)
    requires c < |video|
    ensures Extracted(video[..c + 1], w) ==
      Extracted(video[..c], w) + (if w.Selects(c) then [Written(FrameName(c), video[c])] else [])
  {
    assert video[..c + 1][..c] == video[..c];
  }

  /** `extract_frames`: reads the recording frame by frame and writes the
      frames inside either window under their zero-padded names. */
  method ExtractFrames(video: seq<Grid>, fps: real, totalFrames: nat, startDur: real, endDur: real)
    returns (r: Result<seq<Written>>)
    ensures FrameWindow(fps, totalFrames, startDur, endDur).Err? ==> r == Err(ZeroDivisionError)
    ensures FrameWindow(fps, totalFrames, startDur, endDur).Ok? ==>
      r == Ok(Extracted(video, FrameWindow(fps, totalFrames, startDur, endDur).value))
  {
    if fps == 0.0 {
      return Err(ZeroDivisionError);
    }
    var startFrame := 0;
    var w := FrameWindow(fps, totalFrames, startDur, endDur).value;
    var endFrame, endStartFrame, endEndFrame := w.endFrame, w.endStart, w.total;
    var written: seq<Written> := [];
    var frameCount := 0;
    var currentFrame := 0;
    while currentFrame < |video|
      invariant 0 <= currentFrame <= |video|
      invariant frameCount == currentFrame
      invariant written == Extracted(video[..currentFrame], w)
    {
      var frame := video[currentFrame];
      ExtractedStep(video, w, currentFrame);
      if startFrame <= currentFrame < endFrame || endStartFrame <= currentFrame < endEndFrame {
        written := written + [Written(FrameName(frameCount), frame)];
      }
      frameCount := frameCount + 1;
      currentFrame := currentFrame + 1;
    }
    assert video[..|video|] == video;
    r := Ok(written);
  }

  lemma FrameNameDigits(n: nat)
    ensures FrameName(n)[6..|FrameName(n)| - 4] == ZeroPad(n, 6)
  {
  }

  lemma FrameNameInjective(a: nat, b: nat)
    requires FrameName(a) == FrameName(b)
    ensures a == b
  {
    FrameNameDigits(a);
    FrameNameDigits(b);
    ZeroPadValue(a, 6);
    ZeroPadValue(b, 6);
  }

  /** Frame n of the recording is written, under its own name, exactly
      when a window selects it; nothing else is written. */
  lemma {:induction false} ExtractedMembers(video: seq<Grid>, w: Window, n: nat)
    ensures n < |video| ==> (w.Selects(n) <==> Written(FrameName(n), video[n]) in Extracted(video, w))
    ensures forall x :: x in Extracted(video, w) ==>
      exists m :: 0 <= m < |video| && w.Selects(m) && x == Written(FrameName(m), video[m])
  {
    if video != [] {
      var last := |video| - 1;
      var p := video[..last];
      ExtractedMembers(p, w, n);
      assert forall k :: 0 <= k < |p| ==> p[k] == video[k];
      var tail := if w.Selects(last) then [Written(FrameName(last), video[last])] else [];
      assert Extracted(video, w) == Extracted(p, w) + tail;
      if n < |video| {
        var x := Written(FrameName(n), video[n]);
        if n < last {
          if x in tail {
            FrameNameInjective(n, last);
          }
        } else if x in Extracted(p, w) {
          var m :| 0 <= m < |p| && w.Selects(m) && x == Written(FrameName(m), p[m]);
          FrameNameInjective(n, m);
        }
      }
    }
  }

  /** The name's text before its first '.', keeping at most its last six
      characters. */
  function IndexDigits(name: string): string {
    var stem := Split(name, ".")[0];
    if |stem| <= 6 then stem else stem[|stem| - 6..]
  }

  /** The frame index read back from a frame's file name. */
  function ParseFrameIndex(name: string): Result<int> {
    PyInt(IndexDigits(name))
  }

  /** Parsing a frame name gives back its index modulo 10^6: exact for the
      first million frames, wrapped beyond. */
  lemma FrameIndexRoundTrip(n: nat)
    ensures ParseFrameIndex(FrameName(n)) == Ok(n % 1000000)
  {
    var pad := ZeroPad(n, 6);
    var stem := "frame_" + pad;
    FrameNameStem(n);
    var digits := pad[|pad| - 6..];
    assert IndexDigits(FrameName(n)) == digits by {
      assert stem[|stem| - 6..] == digits;
    }
    PyIntOfDigits(digits);
    DecValueSuffix(pad, 6);
    ZeroPadValue(n, 6);
    assert Pow10(6) == 1000000;
  }

  /** A frame name's text before its first '.' is `frame_` and the padded
      index. */
  lemma FrameNameStem(n: nat)
    ensures Split(FrameName(n), ".")[0] == "frame_" + ZeroPad(n, 6)
  {
    var pad := ZeroPad(n, 6);
    var name := FrameName(n);
    var p := 6 + |pad|;
    assert name[p..p + 1] == ".";
    forall k | 0 <= k < p
      ensures !OccursAt(name, ".", k)
    {
      if k < 6 {
        assert name[k] == "frame_"[k];
      } else {
        assert name[k] == pad[k - 6];
      }
      assert name[k..k + 1][0] == name[k];
    }
    FindIs(name, ".", p);
    SplitHead(name, ".");
    assert name[..p] == "frame_" + pad;
  }

  /** Within the first million frames the name parses back to the index itself. */
  lemma FrameIndexExact(n: nat)
    requires n < 1000000
    ensures ParseFrameIndex(FrameName(n)) == Ok(n)
  {
    assert n % 1000000 == n;
    FrameIndexRoundTrip(n);
  }
}

/** The two file helpers of common.go: `write`, which writes one value to a
    pseudo-file, and `migrateTasks`, which copies a tasks file line by line
    into another tasks file. */
module Common {
  import opened FileSystem

  /** `write(path, data)`: open the path for writing (failure is returned
      and nothing is written), then issue a single write of `text`, the %v
      rendering of the value, whose own failure is ignored. */
  function Write(fs: Fs, p: Path, text: string): (r: Outcome)
    ensures r.ok <==> CanOpenWrite(fs, p)
    ensures r.fs.log == fs.log || r.fs.log == fs.log + [Chunk(p, text)]
    ensures r.fs.log == fs.log + [Chunk(p, text)] <==> CanOpenWrite(fs, p) && Accepts(fs, p)
    ensures SameFiles(fs, r.fs)
    ensures forall q :: q != p && q in fs.quota ==> r.fs.quota[q] == fs.quota[q]
  {
    if !CanOpenWrite(fs, p) then Outcome(fs, false)
    else Outcome(PutChunk(fs, p, text).fs, true)
  }

  /** The copy loop of migrateTasks: one write per line, in order, stopping
      at the first write that fails. */
  function CopyLines(fs: Fs, dst: Path, lines: seq<string>): (r: Outcome)
    ensures SameFiles(fs, r.fs)
    ensures r.ok <==> Accepted(fs, dst, |lines|) == |lines|
    ensures forall q :: q != dst && q in fs.quota ==> r.fs.quota[q] == fs.quota[q]
    decreases |lines|
  {
    if lines == [] then Outcome(fs, true)
    else
      var put := PutChunk(fs, dst, lines[0]);
      if !put.ok then Outcome(put.fs, false) else CopyLines(put.fs, dst, lines[1..])
  }

  /** `migrateTasks(src, dst)`: reopen `src` by path, so that reading starts
      at its beginning; fail with no write when it cannot be read or `dst`
      cannot be written; otherwise copy its lines into `dst`. */
  function Migrate(fs: Fs, src: Path, dst: Path): (r: Outcome)
    ensures SameFiles(fs, r.fs)
    ensures r.ok <==> CopiesAll(fs, src, dst)
    ensures forall q :: q != dst && q in fs.quota ==> r.fs.quota[q] == fs.quota[q]
  {
    if !CanOpenRead(fs, src) || !CanOpenWrite(fs, dst) then Outcome(fs, false)
    else CopyLines(fs, dst, ScanLines(fs.contents[src]))
  }

  /** Whether migrateTasks copies every line: both files open, and `dst`
      accepts as many writes as `src` has lines. */
  predicate CopiesAll(fs: Fs, src: Path, dst: Path) {
    && CanOpenRead(fs, src) && CanOpenWrite(fs, dst)
    && Accepted(fs, dst, |ScanLines(fs.contents[src])|) == |ScanLines(fs.contents[src])|
  }

  /** How many of `n` chunk writes to `dst` the file system accepts. */
  function Accepted(fs: Fs, dst: Path, n: nat): (k: nat)
    ensures k <= n
  {
    if dst in fs.quota && fs.quota[dst] < n then fs.quota[dst] else n
  }

  /** An accepted write uses up one of the writes the destination accepts. */
  lemma AcceptedAfterPut(fs: Fs, dst: Path, text: string, n: nat)
    requires n >= 1
    ensures PutChunk(fs, dst, text).ok ==> Accepted(fs, dst, n) >= 1 && Accepted(PutChunk(fs, dst, text).fs, dst, n - 1) == Accepted(fs, dst, n) - 1
    ensures !PutChunk(fs, dst, text).ok ==> Accepted(fs, dst, n) == 0
  {
  }

  /** The copy writes the longest prefix of the lines the destination
      accepts, one chunk per line with no newline added, and succeeds exactly
      when every line was written; what was written is never undone. */
  lemma {:induction false} CopyLinesWrites(fs: Fs, dst: Path, lines: seq<string>)
    ensures var r := CopyLines(fs, dst, lines);
            var k := Accepted(fs, dst, |lines|);
            && r.fs.log == fs.log + ChunksOf(dst, lines[..k])
            && (r.ok <==> k == |lines|)
    decreases |lines|
  {
    var k := Accepted(fs, dst, |lines|);
    if lines == [] {
      assert lines[..k] == [];
    } else {
      var put := PutChunk(fs, dst, lines[0]);
      if !put.ok {
        assert k == 0 && lines[..k] == [];
      } else {
        var rest := lines[1..];
        CopyLinesWrites(put.fs, dst, rest);
        var k' := Accepted(put.fs, dst, |rest|);
        AcceptedAfterPut(fs, dst, lines[0], |lines|);
        assert k' == k - 1;
        assert put.fs.log == fs.log + [Chunk(dst, lines[0])];
        assert lines[..k] == [lines[0]] + rest[..k'];
        assert ChunksOf(dst, lines[..k]) == [Chunk(dst, lines[0])] + ChunksOf(dst, rest[..k']);
        var r := CopyLines(fs, dst, lines);
        assert r == CopyLines(put.fs, dst, rest);
        assert r.fs.log == fs.log + ([Chunk(dst, lines[0])] + ChunksOf(dst, rest[..k']));
      }
    }
  }

  /** The loop of migrateTasks, proved to do what Migrate specifies. */
  method MigrateTasks(fs: Fs, src: Path, dst: Path) returns (r: Outcome)
    ensures r == Migrate(fs, src, dst)
  {
    if src !in fs.contents {
      return Outcome(fs, false);
    }
    if dst in fs.unwritable {
      return Outcome(fs, false);
    }
    var lines := ScanLines(fs.contents[src]);
    var cur := fs;
    var i := 0;
    while i < |lines|
      invariant 0 <= i <= |lines|
      invariant CopyLines(fs, dst, lines) == CopyLines(cur, dst, lines[i..])
    {
      var put := PutChunk(cur, dst, lines[i]);
      if !put.ok {
        return Outcome(put.fs, false);
      }
      assert lines[i..][1..] == lines[i + 1..];
      cur := put.fs;
      i := i + 1;
    }
    return Outcome(cur, true);
  }

  /** An empty source file produces no write and no error. */
  lemma MigrateEmptySource(fs: Fs, src: Path, dst: Path)
    requires CanOpenRead(fs, src) && CanOpenWrite(fs, dst)
    requires fs.contents[src] == ""
    ensures Migrate(fs, src, dst) == Outcome(fs, true)
  {
  }

  /** Failing to open either side is an error with no write. */
  lemma MigrateOpenFailure(fs: Fs, src: Path, dst: Path)
    requires !CanOpenRead(fs, src) || !CanOpenWrite(fs, dst)
    ensures Migrate(fs, src, dst) == Outcome(fs, false)
  {
  }

  /** Every line of the source reaches the destination, in source order and
      one write per line, when the destination accepts that many writes; a
      failed write stops the copy after the lines already written. */
  lemma MigrateWrites(fs: Fs, src: Path, dst: Path)
    requires CanOpenRead(fs, src) && CanOpenWrite(fs, dst)
    ensures var lines := ScanLines(fs.contents[src]);
            var r := Migrate(fs, src, dst);
            var k := Accepted(fs, dst, |lines|);
            && r.fs.log == fs.log + ChunksOf(dst, lines[..k])
            && (r.ok <==> k == |lines|)
  {
    CopyLinesWrites(fs, dst, ScanLines(fs.contents[src]));
  }

  /** A line of 64 KiB or more stops the copy without an error: the lines
      before it are copied, those from it on are not, and the migrate still
      succeeds when the destination accepted the lines before it. */
  lemma MigrateLongLine(fs: Fs, src: Path, dst: Path, pre: seq<string>, long: string, rest: string)
    requires CanOpenRead(fs, src) && CanOpenWrite(fs, dst) && dst !in fs.quota
    requires forall k :: 0 <= k < |pre| ==> PlainLine(pre[k])
    requires '\n' !in long && |long| >= MaxScanTokenSize
    requires fs.contents[src] == JoinLines(pre) + long + rest
    ensures Migrate(fs, src, dst).ok
    ensures Migrate(fs, src, dst).fs.log == fs.log + ChunksOf(dst, pre)
  {
    LongLineStopsScan(pre, long, rest);
    MigrateWrites(fs, src, dst);
    assert pre[..|pre|] == pre;
  }

  /** A listing of one PID per line is copied as exactly those PIDs. */
  lemma MigrateListing(fs: Fs, src: Path, dst: Path, pids: seq<string>)
    requires CanOpenRead(fs, src) && CanOpenWrite(fs, dst) && dst !in fs.quota
    requires forall k :: 0 <= k < |pids| ==> PlainLine(pids[k])
    requires fs.contents[src] == JoinLines(pids)
    ensures Migrate(fs, src, dst) == Outcome(Migrate(fs, src, dst).fs, true)
    ensures Migrate(fs, src, dst).fs.log == fs.log + ChunksOf(dst, pids)
  {
    ScanJoinLines(pids);
    MigrateWrites(fs, src, dst);
    assert pids[..|pids|] == pids;
  }
}

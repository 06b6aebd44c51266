/** The pseudo-file system the daemon acts on (cgroup, cpuset and sysfs
    files), reduced to what the daemon can observe: what reading a path
    returns, whether opening it for writing fails, whether a chunk write to it
    is accepted, and the ordered log of accepted chunk writes. */
module FileSystem {
  import opened Opt
  import Text

  type Path = string

  /** One accepted write call: the text handed to the writer of `path`. */
  datatype Chunk = Chunk(path: Path, text: string)

  /** `contents` is what reading each readable path returns. It is fixed:
      in this model the daemon's own writes never change what a later read
      returns.
      Opening a path for writing fails when it is in `unwritable`. `quota[p]`
      is how many more chunk writes p accepts (a path without a quota accepts
      any number). `log` holds every accepted chunk, oldest first. */
  datatype Fs = Fs(contents: map<Path, string>, unwritable: set<Path>, quota: map<Path, nat>, log: seq<Chunk>)

  /** A file-system state after an operation, and whether the operation
      reported success. */
  datatype Outcome = Outcome(fs: Fs, ok: bool)

  predicate CanOpenRead(fs: Fs, p: Path) {
    p in fs.contents
  }

  predicate CanOpenWrite(fs: Fs, p: Path) {
    p !in fs.unwritable
  }

  predicate Accepts(fs: Fs, p: Path) {
    p !in fs.quota || fs.quota[p] > 0
  }

  /** A path the daemon can open for writing and that accepts every write. */
  predicate Open(fs: Fs, p: Path) {
    CanOpenWrite(fs, p) && p !in fs.quota
  }

  /** Everything but the write log and the remaining quotas stays as it
      was; which paths have a quota does not change either. */
  predicate SameFiles(fs: Fs, fs': Fs) {
    fs'.contents == fs.contents && fs'.unwritable == fs.unwritable && fs'.quota.Keys == fs.quota.Keys
  }

  /** ioutil.ReadFile: the whole content, or an error for an unreadable path. */
  function ReadFile(fs: Fs, p: Path): (r: Option<string>)
    ensures r.Some? <==> CanOpenRead(fs, p)
    ensures r.Some? ==> r.value == fs.contents[p]
  {
    if p in fs.contents then Some(fs.contents[p]) else None
  }

  /** One Write call on an open writer: the chunk is logged when the path
      still accepts writes, and nothing changes otherwise. */
  function PutChunk(fs: Fs, p: Path, text: string): (r: Outcome)
    ensures r.ok <==> Accepts(fs, p)
    ensures r.ok ==> r.fs.log == fs.log + [Chunk(p, text)]
    ensures !r.ok ==> r.fs == fs
    ensures SameFiles(fs, r.fs)
    ensures forall q :: q != p && q in fs.quota ==> r.fs.quota[q] == fs.quota[q]
  {
    if !Accepts(fs, p) then Outcome(fs, false)
    else
      var quota := if p in fs.quota then fs.quota[p := fs.quota[p] - 1] else fs.quota;
      Outcome(fs.(quota := quota, log := fs.log + [Chunk(p, text)]), true)
  }

  /** The chunks that writing each of `lines` to `p` logs, in order. */
  function ChunksOf(p: Path, lines: seq<string>): (cs: seq<Chunk>)
    ensures |cs| == |lines|
    ensures forall k :: 0 <= k < |cs| ==> cs[k] == Chunk(p, lines[k])
  {
    if lines == [] then [] else [Chunk(p, lines[0])] + ChunksOf(p, lines[1..])
  }

  // ---------------------------------------------------------------------
  // bufio.ScanLines

  /** A line loses one trailing carriage return. */
  function DropCR(l: string): string {
    if |l| > 0 && l[|l| - 1] == '\r' then l[..|l| - 1] else l
  }

  /** bufio.MaxScanTokenSize: the Scanner's buffer never grows past 64 KiB. */
  const MaxScanTokenSize: nat := 64 * 1024

  /** The lines bufio.Scanner yields with ScanLines: split at each newline,
      a final line without newline still counts, an empty input or a final
      newline yields no empty last line, and one trailing '\r' is dropped.
      A line of MaxScanTokenSize bytes or more before its newline does not
      fit the buffer: Scan stops there with ErrTooLong, and neither that
      line nor any after it is yielded. */
  function ScanLines(s: string): (lines: seq<string>)
    ensures forall k :: 0 <= k < |lines| ==> '\n' !in lines[k] && |lines[k]| < MaxScanTokenSize
    ensures |lines| <= |s|
    decreases |s|
  {
    if s == [] then []
    else
      var i := Text.IndexOf(s, '\n');
      if i >= MaxScanTokenSize then []
      else if i == |s| then [DropCR(s)]
      else [DropCR(s[..i])] + ScanLines(s[i + 1..])
  }

  /** A tasks file as the kernel lists it: each line followed by a newline. */
  function JoinLines(lines: seq<string>): string {
    if lines == [] then [] else lines[0] + "\n" + JoinLines(lines[1..])
  }

  /** A line that Scan yields unchanged: no newline, no trailing '\r', and
      short enough for the Scanner's buffer. */
  predicate PlainLine(l: string) {
    '\n' !in l && (l == [] || l[|l| - 1] != '\r') && |l| < MaxScanTokenSize
  }

  /** A plain line and its newline come off the front of a listing. */
  lemma ScanLinesCons(l: string, rest: string)
    requires PlainLine(l)
    ensures ScanLines(l + ['\n'] + rest) == [l] + ScanLines(rest)
  {
    var s := l + ['\n'] + rest;
    Text.IndexOfAfter(l, rest, '\n');
    assert s[..|l|] == l && DropCR(l) == l;
    assert s[|l| + 1..] == rest;
  }

  /** A line of MaxScanTokenSize bytes or more ends the scan: the lines
      before it are all that is yielded, whatever follows. */
  lemma {:induction false} LongLineStopsScan(pre: seq<string>, long: string, rest: string)
    requires forall k :: 0 <= k < |pre| ==> PlainLine(pre[k])
    requires '\n' !in long && |long| >= MaxScanTokenSize
    ensures ScanLines(JoinLines(pre) + long + rest) == pre
  {
    if pre == [] {
      var s := long + rest;
      assert JoinLines(pre) + long + rest == s;
      assert forall k :: 0 <= k < |long| ==> s[k] == long[k];
    } else {
      var tail := JoinLines(pre[1..]) + long + rest;
      assert JoinLines(pre) + long + rest == pre[0] + ['\n'] + tail;
      ScanLinesCons(pre[0], tail);
      LongLineStopsScan(pre[1..], long, rest);
      assert pre == [pre[0]] + pre[1..];
    }
  }

  /** Scanning a newline-terminated listing gives back its lines. */
  lemma {:induction false} ScanJoinLines(lines: seq<string>)
    requires forall k :: 0 <= k < |lines| ==> PlainLine(lines[k])
    ensures ScanLines(JoinLines(lines)) == lines
  {
    if lines != [] {
      var l := lines[0];
      var rest := JoinLines(lines[1..]);
      assert JoinLines(lines) == l + ['\n'] + rest;
      ScanLinesCons(l, rest);
      ScanJoinLines(lines[1..]);
      assert lines == [l] + lines[1..];
    }
  }
}

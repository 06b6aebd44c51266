/** The two kernel commands that move one task: MoveToCgroupHandler with its
    helpers MovePidToCgroup and MovePidToCpuset, and CpusetHandler. Both
    trim their arguments and split them at single spaces; a malformed
    command is only logged. */
module Handlers {
  import opened Opt
  import opened FileSystem
  import opened Common
  import Text

  const CpusetBasePath: Path := "/sys/fs/cgroup/cpuset"

  // ---------------------------------------------------------------------
  // move_to_cgroup

  /** The arguments `PID cgroup_name should_assign_cpuset`. */
  datatype MoveArgs = MoveArgs(pid: int, cgroup: string, assignCpuset: bool)

  /** Exactly three space-separated tokens, the first an int (Atoi), the
      last a bool (ParseBool); any other text is rejected. */
  function ParseMoveArgs(args: string): (r: Option<MoveArgs>)
    ensures r.Some? ==> Text.IntMin <= r.value.pid <= Text.IntMax && ' ' !in r.value.cgroup
    ensures |Text.Split(Text.TrimSpace(args), ' ')| != 3 ==> r.None?
    ensures var tokens := Text.Split(Text.TrimSpace(args), ' ');
            r.Some? <==> |tokens| == 3 && Text.ParseInt(tokens[0]).Some? && Text.ParseBool(tokens[2]).Some?
    ensures var tokens := Text.Split(Text.TrimSpace(args), ' ');
            r.Some? ==> && Text.ParseInt(tokens[0]) == Some(r.value.pid) && tokens[1] == r.value.cgroup
                        && Text.ParseBool(tokens[2]) == Some(r.value.assignCpuset)
  {
    var tokens := Text.Split(Text.TrimSpace(args), ' ');
    if |tokens| != 3 then None
    else
      match Text.ParseInt(tokens[0])
      case None => None
      case Some(pid) =>
        match Text.ParseBool(tokens[2])
        case None => None
        case Some(assign) => Some(MoveArgs(pid, tokens[1], assign))
  }

  lemma ParseMoveArgsOf(args: string, tokens: seq<string>, m: MoveArgs)
    requires tokens == Text.Split(Text.TrimSpace(args), ' ') && |tokens| == 3
    requires Text.ParseInt(tokens[0]) == Some(m.pid) && tokens[1] == m.cgroup
    requires Text.ParseBool(tokens[2]) == Some(m.assignCpuset)
    ensures ParseMoveArgs(args) == Some(m)
  {
  }

  /** The command text a well-formed MoveArgs is sent as. */
  function FormatMoveArgs(m: MoveArgs): string {
    Text.Join([Text.FormatInt(m.pid), m.cgroup, Text.FormatBool(m.assignCpuset)], ' ')
  }

  /** Every well-formed argument triple is read back as sent, with any white
      space around it. */
  lemma ParseFormatMoveArgs(m: MoveArgs, p: string, q: string)
    requires Text.IntMin <= m.pid <= Text.IntMax && ' ' !in m.cgroup
    requires Text.AllSpace(p) && Text.AllSpace(q)
    ensures ParseMoveArgs(p + FormatMoveArgs(m) + q) == Some(m)
  {
    var pid := Text.FormatInt(m.pid);
    var flag := Text.FormatBool(m.assignCpuset);
    var s := FormatMoveArgs(m);
    Text.FormatIntPlain(m.pid);
    Text.FormatBoolPlain(m.assignCpuset);
    Text.Join3(pid, m.cgroup, flag, ' ');
    assert s[0] == pid[0] && s[|s| - 1] == flag[|flag| - 1];
    Text.SplitTrimmed([pid, m.cgroup, flag], p, q);
    var tokens := Text.Split(Text.TrimSpace(p + s + q), ' ');
    assert tokens[0] == pid && tokens[1] == m.cgroup && tokens[2] == flag;
    Text.ParseFormatInt(m.pid);
    Text.ParseFormatBool(m.assignCpuset);
    ParseMoveArgsOf(p + s + q, tokens, m);
  }

  /** A doubled space makes an empty token, so four tokens: rejected. */
  lemma MoveArgsDoubleSpaceRejected()
    ensures ParseMoveArgs("42  bg true") == None
  {
    var ts := ["42", "", "bg", "true"];
    Text.Join3("", "bg", "true", ' ');
    assert ts[1..] == ["", "bg", "true"];
    assert Text.Join(ts, ' ') == "42  bg true";
    Text.SplitTrimmed(ts, [], []);
    assert [] + "42  bg true" + [] == "42  bg true";
  }

  /** `fmt.Sprintf("/dev/cpuctl/%s/tasks", cgroup)` */
  function CgroupTasksPath(cgroup: string): Path {
    "/dev/cpuctl/" + cgroup + "/tasks"
  }

  /** `filepath.Join(CpusetBasePath, "cs_" + cgroup, "tasks")`, for a
      cgroup name that needs no lexical cleaning. */
  function CpusetTasksPath(cgroup: string): Path {
    CpusetBasePath + "/cs_" + cgroup + "/tasks"
  }

  /** MovePidToCgroup: write the pid's decimal text to the cgroup's tasks. */
  function MovePidToCgroup(fs: Fs, pid: int, cgroup: string): (r: Outcome)
    ensures r.ok <==> CanOpenWrite(fs, CgroupTasksPath(cgroup))
    ensures r.fs.log == fs.log || r.fs.log == fs.log + [Chunk(CgroupTasksPath(cgroup), Text.FormatInt(pid))]
  {
    Write(fs, CgroupTasksPath(cgroup), Text.FormatInt(pid))
  }

  /** MovePidToCpuset: write the pid's decimal text to the tasks of the
      cpuset `cs_<cgroup>`. */
  function MovePidToCpuset(fs: Fs, pid: int, cgroup: string): (r: Outcome)
    ensures r.ok <==> CanOpenWrite(fs, CpusetTasksPath(cgroup))
    ensures r.fs.log == fs.log || r.fs.log == fs.log + [Chunk(CpusetTasksPath(cgroup), Text.FormatInt(pid))]
  {
    Write(fs, CpusetTasksPath(cgroup), Text.FormatInt(pid))
  }

  lemma AppendsAtMostOne(log: seq<Chunk>, log': seq<Chunk>, c: Chunk)
    requires log' == log || log' == log + [c]
    ensures |log| <= |log'| <= |log| + 1 && log'[..|log|] == log
  {
  }

  lemma PrefixTrans(a: seq<Chunk>, b: seq<Chunk>, c: seq<Chunk>)
    requires |a| <= |b| <= |a| + 1 && b[..|a|] == a
    requires |b| <= |c| <= |b| + 1 && c[..|b|] == b
    ensures |a| <= |c| <= |a| + 2 && c[..|a|] == a
  {
    assert c[..|a|] == c[..|b|][..|a|];
  }

  /** The moves of an accepted command: to the cgroup, and only when that
      succeeded and the flag is set, to the matching cpuset. */
  function MoveParsed(fs: Fs, m: MoveArgs): (fs': Fs)
    ensures SameFiles(fs, fs')
    ensures |fs.log| <= |fs'.log| <= |fs.log| + 2 && fs'.log[..|fs.log|] == fs.log
  {
    var moved := MovePidToCgroup(fs, m.pid, m.cgroup);
    AppendsAtMostOne(fs.log, moved.fs.log, Chunk(CgroupTasksPath(m.cgroup), Text.FormatInt(m.pid)));
    if !moved.ok || !m.assignCpuset then moved.fs
    else
      var last := MovePidToCpuset(moved.fs, m.pid, m.cgroup).fs;
      AppendsAtMostOne(moved.fs.log, last.log, Chunk(CpusetTasksPath(m.cgroup), Text.FormatInt(m.pid)));
      PrefixTrans(fs.log, moved.fs.log, last.log);
      last
  }

  /** MoveToCgroupHandler: parse the command, then move the pid. */
  function MoveToCgroupHandler(fs: Fs, args: string): (fs': Fs)
    ensures SameFiles(fs, fs')
    ensures |fs.log| <= |fs'.log| <= |fs.log| + 2 && fs'.log[..|fs.log|] == fs.log
  {
    match ParseMoveArgs(args)
    case None => assert fs.log[..|fs.log|] == fs.log; fs
    case Some(m) => MoveParsed(fs, m)
  }

  /** A rejected command writes nothing. */
  lemma MoveRejectedWritesNothing(fs: Fs, args: string)
    requires ParseMoveArgs(args).None?
    ensures MoveToCgroupHandler(fs, args) == fs
  {
  }

  /** A first token that Atoi rejects writes nothing. */
  lemma MoveBadPid(fs: Fs, args: string)
    requires var tokens := Text.Split(Text.TrimSpace(args), ' '); |tokens| == 3 && Text.ParseInt(tokens[0]).None?
    ensures MoveToCgroupHandler(fs, args) == fs
  {
  }

  /** A last token that ParseBool rejects writes nothing, whatever the pid. */
  lemma MoveBadBool(fs: Fs, args: string)
    requires var tokens := Text.Split(Text.TrimSpace(args), ' '); |tokens| == 3 && Text.ParseBool(tokens[2]).None?
    ensures MoveToCgroupHandler(fs, args) == fs
  {
  }

  /** The two tasks paths of a cgroup differ, so writing one leaves the
      other's quota alone. */
  lemma TasksPathsDiffer(cgroup: string)
    ensures CgroupTasksPath(cgroup) != CpusetTasksPath(cgroup)
  {
    assert CgroupTasksPath(cgroup)[1] == 'd';
    assert CpusetTasksPath(cgroup)[1] == 's';
  }

  /** Any accepted command (whatever sign, leading zeros or ParseBool
      spelling it was sent with): when the cgroup's tasks file opens, the
      pid goes there (logged if accepted; a refused write is ignored), and
      then, when asked, to the cpuset's tasks the same way; when it does not
      open, nothing is written. */
  lemma MoveWrites(fs: Fs, args: string, m: MoveArgs)
    requires ParseMoveArgs(args) == Some(m)
    ensures var cg := CgroupTasksPath(m.cgroup);
            var cs := CpusetTasksPath(m.cgroup);
            var pid := Text.FormatInt(m.pid);
            MoveToCgroupHandler(fs, args).log
            == fs.log + (if CanOpenWrite(fs, cg)
                         then (if Accepts(fs, cg) then [Chunk(cg, pid)] else [])
                              + (if m.assignCpuset && CanOpenWrite(fs, cs) && Accepts(fs, cs) then [Chunk(cs, pid)] else [])
                         else [])
  {
    TasksPathsDiffer(m.cgroup);
    assert MoveToCgroupHandler(fs, args) == MoveParsed(fs, m);
    var moved := Write(fs, CgroupTasksPath(m.cgroup), Text.FormatInt(m.pid));
    assert Accepts(moved.fs, CpusetTasksPath(m.cgroup)) == Accepts(fs, CpusetTasksPath(m.cgroup));
  }

  /** A cgroup that cannot be opened stops any accepted command before the
      cpuset. */
  lemma MoveCgroupFailure(fs: Fs, args: string, m: MoveArgs)
    requires ParseMoveArgs(args) == Some(m)
    requires !CanOpenWrite(fs, CgroupTasksPath(m.cgroup))
    ensures MoveToCgroupHandler(fs, args) == fs
  {
  }

  // ---------------------------------------------------------------------
  // cpuset

  /** The tasks file of a named cpuset; "cs_default" is the root cpuset. */
  function CpusetPath(name: string): (p: Path)
    ensures name == "cs_default" <==> p == CpusetBasePath + "/tasks"
  {
    if name == "cs_default" then CpusetBasePath + "/tasks"
    else
      var p := CpusetBasePath + "/" + name + "/tasks";
      assert |p| > |CpusetBasePath + "/tasks"|;
      p
  }

  /** CpusetHandler: exactly two space-separated tokens, the cpuset name and
      an int pid; the pid's decimal text and a newline go to that cpuset's
      tasks. Any other text writes nothing. */
  function CpusetHandler(fs: Fs, args: string): (fs': Fs)
    ensures SameFiles(fs, fs')
    ensures fs'.log == fs.log || exists name, pid :: fs'.log == fs.log + [Chunk(CpusetPath(name), Text.FormatInt(pid) + "\n")]
  {
    var tokens := Text.Split(Text.TrimSpace(args), ' ');
    if |tokens| != 2 then fs
    else
      match Text.ParseInt(tokens[1])
      case None => fs
      case Some(pid) => Write(fs, CpusetPath(tokens[0]), Text.FormatInt(pid) + "\n").fs
  }

  /** A cpuset name and a pid, sent with any surrounding white space, move
      exactly that pid into exactly that cpuset. */
  lemma CpusetWrites(fs: Fs, name: string, pid: int, p: string, q: string)
    requires Text.IntMin <= pid <= Text.IntMax && ' ' !in name && name != []
    requires !Text.IsSpace(name[0])
    requires Text.AllSpace(p) && Text.AllSpace(q)
    requires Open(fs, CpusetPath(name))
    ensures CpusetHandler(fs, p + Text.Join([name, Text.FormatInt(pid)], ' ') + q).log
            == fs.log + [Chunk(CpusetPath(name), Text.FormatInt(pid) + "\n")]
  {
    var digits := Text.FormatInt(pid);
    Text.FormatIntPlain(pid);
    var s := Text.Join([name, digits], ' ');
    Text.Join2(name, digits, ' ');
    assert s[0] == name[0] && s[|s| - 1] == digits[|digits| - 1];
    Text.SplitTrimmed([name, digits], p, q);
    var tokens := Text.Split(Text.TrimSpace(p + s + q), ' ');
    assert tokens[0] == name && tokens[1] == digits;
    Text.ParseFormatInt(pid);
    CpusetHandlerOf(fs, p + s + q, tokens, pid);
  }

  lemma CpusetHandlerOf(fs: Fs, args: string, tokens: seq<string>, pid: int)
    requires tokens == Text.Split(Text.TrimSpace(args), ' ') && |tokens| == 2
    requires Text.ParseInt(tokens[1]) == Some(pid)
    ensures CpusetHandler(fs, args) == Write(fs, CpusetPath(tokens[0]), Text.FormatInt(pid) + "\n").fs
  {
  }

  /** The pid is written in canonical decimal, whatever sign or leading
      zeros it was sent with: "<name> +042" writes "42\n". */
  lemma CpusetCanonicalPid(fs: Fs, name: string)
    requires ' ' !in name && name != [] && !Text.IsSpace(name[0])
    requires Open(fs, CpusetPath(name))
    ensures CpusetHandler(fs, name + " +042").log == fs.log + [Chunk(CpusetPath(name), "42\n")]
  {
    var args := name + " +042";
    Text.Join2(name, "+042", ' ');
    assert Text.Join([name, "+042"], ' ') == args;
    Text.SplitTrimmed([name, "+042"], [], []);
    assert [] + args + [] == args;
    var tokens := Text.Split(Text.TrimSpace(args), ' ');
    assert tokens == [name, "+042"];
    PlusZeroFortyTwo();
    CpusetHandlerOf(fs, args, tokens, 42);
  }

  lemma PlusZeroFortyTwo()
    ensures Text.ParseInt("+042") == Some(42) && Text.FormatInt(42) + "\n" == "42\n"
  {
    assert Text.DigitsValue("042") == 42 by {
      assert "042"[..2] == "04" && "04"[..1] == "0" && "0"[..0] == "";
    }
    var f := Text.FormatNat(42);
    assert f == Text.FormatNat(4) + [Text.Digit(2)];
    assert f == ['4', '2'];
    assert f + "\n" == ['4', '2', '\n'];
  }

  /** A second token that Atoi rejects writes nothing. */
  lemma CpusetBadPid(fs: Fs, args: string)
    requires var tokens := Text.Split(Text.TrimSpace(args), ' '); |tokens| == 2 && Text.ParseInt(tokens[1]).None?
    ensures CpusetHandler(fs, args) == fs
  {
  }

  /** Any token count other than two writes nothing. */
  lemma CpusetWrongArity(fs: Fs, args: string)
    requires |Text.Split(Text.TrimSpace(args), ' ')| != 2
    ensures CpusetHandler(fs, args) == fs
  {
  }
}

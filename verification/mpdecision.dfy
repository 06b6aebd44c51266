/** mpdecision_handler.go: the core-block state machine (BlockMpdecision,
    UnblockMpdecision), the handler that toggles it on a kernel command, and
    the upcall tracker of MpdecisionCoexistUpcallHandler.

    The goroutines and channels are reduced to what they decide: whether the
    completion signal is sent (the dispatcher waits for it with `<-signal`,
    so a missing signal stalls it for good), and whether a successful Block
    is parked on the unbuffered `signalChan`, which is the only receiver an
    Unblock's send can meet. */
module Mpdecision {
  import opened Wire
  import opened Opt
  import opened FileSystem
  import opened Common
  import Text
  import Netlink

  const BgCpuFile: Path := "/sys/tempfreq/mpdecision_bg_cpu"
  const BgCpusetCpus: Path := "/sys/fs/cgroup/cpuset/cs_bg_non_interactive/cpuset.cpus"
  const BgCpusetMems: Path := "/sys/fs/cgroup/cpuset/cs_bg_non_interactive/cpuset.mems"
  const BgCpusetTasks: Path := "/sys/fs/cgroup/cpuset/cs_bg_non_interactive/tasks"
  const BgCgroupTasks: Path := "/dev/cpuctl/bg_non_interactive/tasks"
  const RootTasks: Path := "/sys/fs/cgroup/cpuset/tasks"
  const RootCpusetCpus: Path := "/sys/fs/cgroup/cpuset/cpuset.cpus"
  const UpcallFile: Path := "/sys/tempfreq/mpdecision_coexist_upcall"

  /** `isBlocked`, and whether a successful Block is still waiting on
      `signalChan` for its Unblock. */
  datatype CoreState = CoreState(isBlocked: bool, parked: bool)

  /** A Block only parks after it has set the flag, and only Unblock clears
      the flag, after releasing the parked Block. */
  predicate Consistent(st: CoreState) {
    st.parked ==> st.isBlocked
  }

  /** The state after a Block or Unblock, the file system after its writes,
      and whether it sent the completion signal. */
  datatype Transition = Transition(state: CoreState, fs: Fs, signalled: bool)

  /** Every step of a Block from Unblocked goes through: the bg-cpu file
      reads, both cpuset writes open, and the copy writes every task. */
  predicate BlockSucceeds(fs: Fs) {
    && CanOpenRead(fs, BgCpuFile) && CanOpenWrite(fs, BgCpusetMems) && CanOpenWrite(fs, BgCpusetCpus)
    && CopiesAll(fs, BgCgroupTasks, BgCpusetTasks)
  }

  /** BlockMpdecision. Already blocked: nothing happens but the signal.
      Otherwise the flag is set before any I/O; an unreadable bg-cpu file
      returns without the signal; then "0" goes to the cpuset's mems, the
      bg-cpu file's bytes to its cpus, and the bg cgroup's tasks are copied
      into the cpuset's tasks, the first failure skipping the rest. The
      signal is sent on all those paths, and only a full success parks.
      Opening the two tasks files before migrateTasks fails exactly when
      migrateTasks' own opening would, so Migrate covers both. */
  function BlockSpec(st: CoreState, fs: Fs): (t: Transition)
    ensures SameFiles(fs, t.fs)
    ensures !st.isBlocked ==> t.state.isBlocked && (t.signalled <==> CanOpenRead(fs, BgCpuFile))
    ensures !st.isBlocked ==> (t.state.parked <==> BlockSucceeds(fs))
  {
    if st.isBlocked then Transition(st, fs, true)
    else
      match ReadFile(fs, BgCpuFile)
      case None => Transition(CoreState(true, false), fs, false)
      case Some(bgCpus) =>
        var mems := Write(fs, BgCpusetMems, "0");
        if !mems.ok then Transition(CoreState(true, false), mems.fs, true)
        else
          var cpus := Write(mems.fs, BgCpusetCpus, bgCpus);
          if !cpus.ok then Transition(CoreState(true, false), cpus.fs, true)
          else
            var m := Migrate(cpus.fs, BgCgroupTasks, BgCpusetTasks);
            Transition(CoreState(true, m.ok), m.fs, true)
  }

  /** UnblockMpdecision. Not blocked: nothing happens but the signal. A
      blocked state with no Block parked on `signalChan` makes the send
      wait forever: nothing else happens and no signal is sent. Otherwise
      the parked Block is released and the flag cleared, "" goes to mems
      then cpus, and the bg cpuset's tasks are copied into the root cpuset.
      A failing write or copy still signals; failing to open either tasks
      file returns without the signal. */
  function UnblockSpec(st: CoreState, fs: Fs): (t: Transition)
    ensures SameFiles(fs, t.fs)
    ensures st.isBlocked && !st.parked ==> t == Transition(st, fs, false)
    ensures st.isBlocked && st.parked ==> t.state == CoreState(false, false)
    ensures st.isBlocked && st.parked ==>
              (t.signalled <==> !CanOpenWrite(fs, BgCpusetMems) || !CanOpenWrite(fs, BgCpusetCpus)
                                || (CanOpenRead(fs, BgCpusetTasks) && CanOpenWrite(fs, RootTasks)))
  {
    if !st.isBlocked then Transition(st, fs, true)
    else if !st.parked then Transition(st, fs, false)
    else
      var free := CoreState(false, false);
      var mems := Write(fs, BgCpusetMems, "");
      if !mems.ok then Transition(free, mems.fs, true)
      else
        var cpus := Write(mems.fs, BgCpusetCpus, "");
        if !cpus.ok then Transition(free, cpus.fs, true)
        else if !CanOpenRead(cpus.fs, BgCpusetTasks) || !CanOpenWrite(cpus.fs, RootTasks) then
          Transition(free, cpus.fs, false)
        else
          var m := Migrate(cpus.fs, BgCpusetTasks, RootTasks);
          Transition(free, m.fs, true)
  }

  /** The process-wide block state: `isBlocked` starts false. */
  class CoreBlock {
    var isBlocked: bool
    var parked: bool

    constructor ()
      ensures !isBlocked && !parked && Valid()
    {
      isBlocked := false;
      parked := false;
    }

    function State(): CoreState
      reads this
    {
      CoreState(isBlocked, parked)
    }

    ghost predicate Valid()
      reads this
    {
      Consistent(State())
    }

    method Block(fs: Fs) returns (fs': Fs, signalled: bool)
      requires Valid()
      modifies this
      ensures Valid()
      ensures Transition(State(), fs', signalled) == BlockSpec(old(State()), fs)
    {
      fs' := fs;
      if isBlocked {
        return fs', true;
      }
      isBlocked := true;
      var b := ReadFile(fs', BgCpuFile);
      if b.None? {
        return fs', false;
      }
      var w := Write(fs', BgCpusetMems, "0");
      fs' := w.fs;
      if !w.ok {
        return fs', true;
      }
      w := Write(fs', BgCpusetCpus, b.value);
      fs' := w.fs;
      if !w.ok {
        return fs', true;
      }
      var m := MigrateTasks(fs', BgCgroupTasks, BgCpusetTasks);
      fs' := m.fs;
      parked := m.ok;
      signalled := true;
    }

    method Unblock(fs: Fs) returns (fs': Fs, signalled: bool)
      requires Valid()
      modifies this
      ensures Valid()
      ensures Transition(State(), fs', signalled) == UnblockSpec(old(State()), fs)
    {
      fs' := fs;
      if !isBlocked {
        return fs', true;
      }
      if !parked {
        return fs', false;
      }
      parked := false;
      isBlocked := false;
      var w := Write(fs', BgCpusetMems, "");
      fs' := w.fs;
      if !w.ok {
        return fs', true;
      }
      w := Write(fs', BgCpusetCpus, "");
      fs' := w.fs;
      if !w.ok {
        return fs', true;
      }
      if !CanOpenRead(fs', BgCpusetTasks) || !CanOpenWrite(fs', RootTasks) {
        return fs', false;
      }
      var m := MigrateTasks(fs', BgCpusetTasks, RootTasks);
      fs' := m.fs;
      signalled := true;
    }
  }

  // ---------------------------------------------------------------------
  // Properties of the state machine

  lemma TransitionsKeepConsistent(st: CoreState, fs: Fs)
    requires Consistent(st)
    ensures Consistent(BlockSpec(st, fs).state) && Consistent(UnblockSpec(st, fs).state)
  {
  }

  /** Blocking while blocked writes nothing, stays blocked, signals, and
      does not park a second time. */
  lemma BlockWhenBlocked(st: CoreState, fs: Fs)
    requires st.isBlocked
    ensures BlockSpec(st, fs) == Transition(st, fs, true)
  {
  }

  /** Block from Unblocked leaves the state Blocked whatever fails later. */
  lemma BlockAlwaysSetsFlag(st: CoreState, fs: Fs)
    requires !st.isBlocked
    ensures BlockSpec(st, fs).state.isBlocked
    ensures BlockSpec(st, fs).state.parked ==> BlockSpec(st, fs).signalled
  {
  }

  /** An unreadable bg-cpu file: no write and no completion signal. */
  lemma BlockReadFailure(st: CoreState, fs: Fs)
    requires !st.isBlocked && !CanOpenRead(fs, BgCpuFile)
    ensures BlockSpec(st, fs) == Transition(CoreState(true, false), fs, false)
  {
  }

  /** A failed first write skips everything after it. */
  lemma BlockMemsFailure(st: CoreState, fs: Fs)
    requires !st.isBlocked && CanOpenRead(fs, BgCpuFile) && !CanOpenWrite(fs, BgCpusetMems)
    ensures BlockSpec(st, fs) == Transition(CoreState(true, false), fs, true)
  {
  }

  /** A failed cpus write comes after the mems write: "0" is in the log,
      the flag is set, the signal sent, and nothing parks. */
  lemma BlockCpusFailure(st: CoreState, fs: Fs)
    requires !st.isBlocked && CanOpenRead(fs, BgCpuFile) && Open(fs, BgCpusetMems) && !CanOpenWrite(fs, BgCpusetCpus)
    ensures var t := BlockSpec(st, fs);
            t == Transition(CoreState(true, false), t.fs, true) && t.fs.log == fs.log + [Chunk(BgCpusetMems, "0")]
  {
  }

  /** A tasks file that does not open after both cpuset writes: the two
      writes stay, the signal is sent, and nothing parks. */
  lemma BlockTasksOpenFailure(st: CoreState, fs: Fs)
    requires !st.isBlocked && CanOpenRead(fs, BgCpuFile) && Open(fs, BgCpusetMems) && Open(fs, BgCpusetCpus)
    requires !CanOpenRead(fs, BgCgroupTasks) || !CanOpenWrite(fs, BgCpusetTasks)
    ensures var t := BlockSpec(st, fs);
            && t == Transition(CoreState(true, false), t.fs, true)
            && t.fs.log == fs.log + [Chunk(BgCpusetMems, "0"), Chunk(BgCpusetCpus, fs.contents[BgCpuFile])]
  {
  }

  /** Everything opens: "0" to mems, the bg-cpu text verbatim to cpus, then
      each line of the bg cgroup's tasks to the bg cpuset's tasks, in that
      order, as far as the destination accepts them. The Block signals in
      any case and parks exactly when every line was written. */
  lemma BlockWrites(st: CoreState, fs: Fs)
    requires !st.isBlocked && CanOpenRead(fs, BgCpuFile) && CanOpenRead(fs, BgCgroupTasks)
    requires Open(fs, BgCpusetMems) && Open(fs, BgCpusetCpus) && CanOpenWrite(fs, BgCpusetTasks)
    ensures var t := BlockSpec(st, fs);
            var lines := ScanLines(fs.contents[BgCgroupTasks]);
            var k := Accepted(fs, BgCpusetTasks, |lines|);
            && t == Transition(CoreState(true, k == |lines|), t.fs, true)
            && t.fs.log == fs.log + [Chunk(BgCpusetMems, "0"), Chunk(BgCpusetCpus, fs.contents[BgCpuFile])]
                                  + ChunksOf(BgCpusetTasks, lines[..k])
  {
    var mems := Write(fs, BgCpusetMems, "0");
    var cpus := Write(mems.fs, BgCpusetCpus, fs.contents[BgCpuFile]);
    assert cpus.fs.log == fs.log + [Chunk(BgCpusetMems, "0"), Chunk(BgCpusetCpus, fs.contents[BgCpuFile])];
    MigrateWrites(cpus.fs, BgCgroupTasks, BgCpusetTasks);
  }

  /** Unblocking while unblocked writes nothing and still signals. */
  lemma UnblockWhenUnblocked(st: CoreState, fs: Fs)
    requires !st.isBlocked
    ensures UnblockSpec(st, fs) == Transition(st, fs, true)
  {
  }

  /** After a Block from Unblocked that failed at any step nobody receives
      on `signalChan`: the Unblock is stuck, changes nothing and never
      signals. */
  lemma UnblockAfterFailedBlockStalls(fs0: Fs, fs: Fs)
    requires !BlockSucceeds(fs0)
    ensures var b := BlockSpec(CoreState(false, false), fs0);
            UnblockSpec(b.state, fs) == Transition(b.state, fs, false)
  {
  }

  /** Everything opens: the flag is cleared, "" goes to mems then cpus,
      and each line of the bg cpuset's tasks goes to the root cpuset as far
      as the root cpuset accepts them; a copy that stops early still
      signals. */
  lemma UnblockWrites(st: CoreState, fs: Fs)
    requires st.isBlocked && st.parked && CanOpenRead(fs, BgCpusetTasks)
    requires Open(fs, BgCpusetMems) && Open(fs, BgCpusetCpus) && CanOpenWrite(fs, RootTasks)
    ensures var t := UnblockSpec(st, fs);
            var lines := ScanLines(fs.contents[BgCpusetTasks]);
            && t == Transition(CoreState(false, false), t.fs, true)
            && t.fs.log == fs.log + [Chunk(BgCpusetMems, ""), Chunk(BgCpusetCpus, "")]
                                  + ChunksOf(RootTasks, lines[..Accepted(fs, RootTasks, |lines|)])
  {
    var mems := Write(fs, BgCpusetMems, "");
    var cpus := Write(mems.fs, BgCpusetCpus, "");
    assert cpus.fs.log == fs.log + [Chunk(BgCpusetMems, ""), Chunk(BgCpusetCpus, "")];
    MigrateWrites(cpus.fs, BgCpusetTasks, RootTasks);
  }

  /** A failed mems or cpus write still releases the parked Block, clears
      the flag and signals, and copies no task. */
  lemma UnblockWriteFailure(st: CoreState, fs: Fs)
    requires st.isBlocked && st.parked
    requires !CanOpenWrite(fs, BgCpusetMems) || !CanOpenWrite(fs, BgCpusetCpus)
    ensures var t := UnblockSpec(st, fs);
            && t.state == CoreState(false, false) && t.signalled
            && (t.fs.log == fs.log || t.fs.log == fs.log + [Chunk(BgCpusetMems, "")])
  {
  }

  /** Failing to open either tasks file after both writes leaves the state
      Unblocked and the two writes done, but sends no completion signal. */
  lemma UnblockOpenFailure(st: CoreState, fs: Fs)
    requires st.isBlocked && st.parked && Open(fs, BgCpusetMems) && Open(fs, BgCpusetCpus)
    requires !CanOpenRead(fs, BgCpusetTasks) || !CanOpenWrite(fs, RootTasks)
    ensures var t := UnblockSpec(st, fs);
            && t == Transition(CoreState(false, false), t.fs, false)
            && t.fs.log == fs.log + [Chunk(BgCpusetMems, ""), Chunk(BgCpusetCpus, "")]
  {
  }

  /** A successful Block followed by an Unblock returns to the initial
      state, both signalled. */
  lemma BlockThenUnblock(fs: Fs)
    requires CanOpenRead(fs, BgCpuFile) && CanOpenRead(fs, BgCgroupTasks) && CanOpenRead(fs, BgCpusetTasks)
    requires Open(fs, BgCpusetMems) && Open(fs, BgCpusetCpus) && Open(fs, BgCpusetTasks) && Open(fs, RootTasks)
    ensures var b := BlockSpec(CoreState(false, false), fs);
            var u := UnblockSpec(b.state, b.fs);
            b.signalled && u.signalled && u.state == CoreState(false, false)
  {
    BlockWrites(CoreState(false, false), fs);
  }

  // ---------------------------------------------------------------------
  // MpdecisionHandler

  datatype Toggle = UnblockCmd | BlockCmd | UnknownCmd(text: string)

  /** The switch on the trimmed text: "0" unblocks, "1" blocks, anything
      else is only logged. */
  function ParseToggle(args: string): (c: Toggle)
    ensures c.UnknownCmd? ==> Text.TrimSpace(args) != "0" && Text.TrimSpace(args) != "1"
  {
    var text := Text.TrimSpace(args);
    if text == "0" then UnblockCmd else if text == "1" then BlockCmd else UnknownCmd(text)
  }

  /** White space around the digit does not matter. */
  lemma ParseTogglePadded(p: string, d: char, q: string)
    requires Text.AllSpace(p) && Text.AllSpace(q) && !Text.IsSpace(d)
    ensures ParseToggle(p + [d] + q) == (if d == '0' then UnblockCmd else if d == '1' then BlockCmd else UnknownCmd([d]))
  {
    Text.TrimSpaceOf(p, [d], q);
  }

  /** The ASCII reply texts "0" and "1". */
  const ReplyUnblocked: seq<byte> := [0x30]
  const ReplyBlocked: seq<byte> := [0x31]

  /** The reply text for a toggle. */
  function ReplyText(cmd: Toggle): seq<byte> {
    if cmd.UnblockCmd? then ReplyUnblocked else ReplyBlocked
  }

  /** A reply as sent: its text and the sequence number stamped on it. */
  datatype Sent = Sent(text: seq<byte>, seqNo: u32)

  /** The bytes Send hands to the kernel for a reply, from a socket bound
      to pid. */
  function Datagram(s: Sent, pid: u32): seq<byte> {
    Netlink.EncodeFrame(Netlink.SendFrame(s.text, s.seqNo, pid))
  }

  /** What handling one toggle did: the core state and the socket's
      sequence counter afterwards, the file system, the reply sent back to
      the kernel if any, and whether the caller is left waiting forever for
      a completion signal that never comes. */
  datatype Toggled = Toggled(state: CoreState, seqNum: u32, fs: Fs, reply: Option<Sent>, stuck: bool)

  /** Run the transition, wait for its signal, then reply with the same
      digit under the next sequence number; an unknown text changes nothing
      and sends nothing. */
  function ToggleSpec(st: CoreState, seqNum: u32, fs: Fs, cmd: Toggle): (o: Toggled)
    ensures SameFiles(fs, o.fs)
    ensures cmd.UnknownCmd? ==> o == Toggled(st, seqNum, fs, None, false)
    ensures o.reply.Some? <==> !cmd.UnknownCmd? && !o.stuck
    ensures o.reply.Some? ==> o.seqNum == ToU32(seqNum as nat + 1) && o.reply.value == Sent(ReplyText(cmd), o.seqNum)
    ensures o.reply.None? ==> o.seqNum == seqNum
  {
    if cmd.UnknownCmd? then Toggled(st, seqNum, fs, None, false)
    else
      var t := if cmd.UnblockCmd? then UnblockSpec(st, fs) else BlockSpec(st, fs);
      if !t.signalled then Toggled(t.state, seqNum, t.fs, None, true)
      else
        var n := ToU32(seqNum as nat + 1);
        Toggled(t.state, n, t.fs, Some(Sent(ReplyText(cmd), n)), false)
  }

  /** The toggle as the handler goroutine performs it. Shared by
      MpdecisionHandler and the receive loop of main.go. */
  method HandleToggle(core: CoreBlock, link: Netlink.NetlinkSocket, fs: Fs, cmd: Toggle)
    returns (fs': Fs, reply: Option<seq<byte>>, stuck: bool)
    requires core.Valid()
    modifies core, link
    ensures core.Valid()
    ensures var o := ToggleSpec(old(core.State()), old(link.seqNum), fs, cmd);
            && core.State() == o.state && link.seqNum == o.seqNum && fs' == o.fs && stuck == o.stuck
            && (reply.Some? <==> o.reply.Some?)
            && (reply.Some? ==> reply.value == Datagram(o.reply.value, link.pid))
  {
    var signalled: bool;
    match cmd {
      case UnknownCmd(_) =>
        return fs, None, false;
      case UnblockCmd =>
        fs', signalled := core.Unblock(fs);
      case BlockCmd =>
        fs', signalled := core.Block(fs);
    }
    if !signalled {
      return fs', None, true;
    }
    var datagram := link.Send(ReplyText(cmd));
    reply, stuck := Some(datagram), false;
  }

  /** MpdecisionHandler: trim the command's arguments and toggle. */
  method MpdecisionHandler(core: CoreBlock, link: Netlink.NetlinkSocket, fs: Fs, args: string)
    returns (fs': Fs, reply: Option<seq<byte>>, stuck: bool)
    requires core.Valid()
    modifies core, link
    ensures core.Valid()
    ensures var o := ToggleSpec(old(core.State()), old(link.seqNum), fs, ParseToggle(args));
            && core.State() == o.state && link.seqNum == o.seqNum && fs' == o.fs && stuck == o.stuck
            && (reply.Some? <==> o.reply.Some?)
            && (reply.Some? ==> reply.value == Datagram(o.reply.value, link.pid))
  {
    fs', reply, stuck := HandleToggle(core, link, fs, ParseToggle(args));
  }

  // ---------------------------------------------------------------------
  // The upcall tracker of MpdecisionCoexistUpcallHandler

  /** handleUpcall: state 1 writes "0" to the bg cpuset's cpus; state 0
      writes "0-3" to the root cpuset's cpus and then, unless that failed,
      "0" to the bg cpuset's cpus; any other state writes nothing. */
  function HandleUpcall(fs: Fs, state: int): (fs': Fs)
    ensures SameFiles(fs, fs')
    ensures state == 1 ==> fs'.log == fs.log + (if CanOpenWrite(fs, BgCpusetCpus) && Accepts(fs, BgCpusetCpus) then [Chunk(BgCpusetCpus, "0")] else [])
    ensures state == 0 ==> fs'.log == fs.log + (if CanOpenWrite(fs, RootCpusetCpus)
                                                then (if Accepts(fs, RootCpusetCpus) then [Chunk(RootCpusetCpus, "0-3")] else [])
                                                     + (if CanOpenWrite(fs, BgCpusetCpus) && Accepts(fs, BgCpusetCpus) then [Chunk(BgCpusetCpus, "0")] else [])
                                                else [])
    ensures state != 0 && state != 1 ==> fs' == fs
  {
    if state == 1 then Write(fs, BgCpusetCpus, "0").fs
    else if state == 0 then
      var root := Write(fs, RootCpusetCpus, "0-3");
      if !root.ok then root.fs else Write(root.fs, BgCpusetCpus, "0").fs
    else fs
  }

  /** The result of the `work` closure: the recorded state afterwards, the
      file system, and whether it returned no error. */
  datatype Upcall = Upcall(recorded: int, fs: Fs, ok: bool)

  /** The `work` closure: read the upcall file and parse it as an int; on
      either failure return the error and keep the recorded value. The first
      value is only recorded; a later one that differs is recorded and
      handled; an equal one changes nothing. */
  function UpcallWork(recorded: int, fs: Fs): (u: Upcall)
    ensures SameFiles(fs, u.fs)
    ensures u.ok <==> CanOpenRead(fs, UpcallFile) && Text.ParseInt(fs.contents[UpcallFile]).Some?
    ensures u.ok ==> u.recorded == Text.ParseInt(fs.contents[UpcallFile]).value
  {
    match ReadFile(fs, UpcallFile)
    case None => Upcall(recorded, fs, false)
    case Some(text) =>
      match Text.ParseInt(text)
      case None => Upcall(recorded, fs, false)
      case Some(v) =>
        if recorded == -1 then Upcall(v, fs, true)
        else if recorded != v then Upcall(v, HandleUpcall(fs, v), true)
        else Upcall(recorded, fs, true)
  }

  /** The closure's captured `mpdecisionBlocked`, starting at -1. */
  class UpcallTracker {
    var recorded: int

    constructor ()
      ensures recorded == -1
    {
      recorded := -1;
    }

    method Work(fs: Fs) returns (fs': Fs, ok: bool)
      modifies this
      ensures Upcall(recorded, fs', ok) == UpcallWork(old(recorded), fs)
    {
      fs' := fs;
      var b := ReadFile(fs, UpcallFile);
      if b.None? {
        return fs', false;
      }
      var v := Text.ParseInt(b.value);
      if v.None? {
        return fs', false;
      }
      if recorded == -1 {
        recorded := v.value;
      } else if recorded != v.value {
        recorded := v.value;
        fs' := HandleUpcall(fs', recorded);
      }
      ok := true;
    }
  }

  /** The recorded value changes only to a value just parsed; handleUpcall
      runs only when an earlier value was recorded and the new one differs;
      a failed read or parse changes nothing. */
  lemma UpcallRecords(recorded: int, fs: Fs)
    ensures var u := UpcallWork(recorded, fs);
            && (u.recorded != recorded ==> u.ok && Text.ParseInt(fs.contents[UpcallFile]) == Some(u.recorded))
            && (u.fs != fs ==> recorded != -1 && u.recorded != recorded)
            && (!u.ok ==> u.recorded == recorded && u.fs == fs)
  {
  }

  /** A parsed value is always recorded; when an earlier value was recorded
      and differs, handleUpcall runs for the new one, and otherwise no file
      is written. */
  lemma UpcallHandlesChange(recorded: int, fs: Fs, v: int)
    requires CanOpenRead(fs, UpcallFile) && Text.ParseInt(fs.contents[UpcallFile]) == Some(v)
    ensures var u := UpcallWork(recorded, fs);
            && u.ok && u.recorded == v
            && u.fs == (if recorded != -1 && recorded != v then HandleUpcall(fs, v) else fs)
  {
  }

  /** The writes of handleUpcall for state 0 with both files writable:
      "0-3" to the root cpuset, then "0" to the bg cpuset. */
  lemma HandleUpcallZero(fs: Fs)
    requires CanOpenWrite(fs, RootCpusetCpus) && CanOpenWrite(fs, BgCpusetCpus)
    requires RootCpusetCpus !in fs.quota && BgCpusetCpus !in fs.quota
    ensures HandleUpcall(fs, 0).log == fs.log + [Chunk(RootCpusetCpus, "0-3"), Chunk(BgCpusetCpus, "0")]
  {
  }

  /** For state 0, a root cpuset that cannot be opened skips the second
      write. */
  lemma HandleUpcallZeroRootFails(fs: Fs)
    requires !CanOpenWrite(fs, RootCpusetCpus)
    ensures HandleUpcall(fs, 0) == fs
  {
  }

  /** Atoi accepts no surrounding white space, so an upcall file holding a
      value followed by a newline is a parse failure that changes nothing. */
  lemma UpcallTrailingNewline(recorded: int, fs: Fs, digits: string)
    requires CanOpenRead(fs, UpcallFile) && fs.contents[UpcallFile] == digits + "\n"
    ensures UpcallWork(recorded, fs) == Upcall(recorded, fs, false)
  {
    var text := digits + "\n";
    assert !Text.IsDigit(text[|text| - 1]);
    if |text| >= 2 {
      assert text[1..][|text| - 2] == text[|text| - 1];
    }
  }
}

/** main.go: the receive loop of NetlinkRecvHandler, which decodes each
    netlink message into a command text, toggles the core block and replies
    to the kernel, and the one-shot guard of BgCgroupHandler. */
module Daemon {
  import opened Wire
  import opened Opt
  import opened FileSystem
  import opened Common
  import Text
  import Utf8
  import Netlink
  import opened Mpdecision

  // ---------------------------------------------------------------------
  // Decoding a message

  /** The command text of one message: a little-endian u32 length, then
      that many bytes, read as a Go string. Go bounds a slice expression by
      the slice's capacity, not its length, and each message's Data shares
      the page-sized receive buffer up to its end; so `data` here is that
      capacity view: the message's data, any later messages, then the
      buffer's zero bytes. The slice bound `4 + real_len` is computed in
      uint32; fewer than four bytes of capacity, or a bound below 4 or past
      the capacity, makes the slice expression panic, which ends the daemon
      (None). */
  function CommandText(data: seq<byte>): (r: Option<string>)
    ensures r.Some? <==> |data| >= 4 && 4 + ReadU32(data) as int <= |data| && 4 + ReadU32(data) as int < U32Modulus
    ensures r.Some? ==> r.value == Utf8.DecodeRunes(data[4..4 + ReadU32(data) as int])
  {
    if |data| < 4 then None
    else
      var end := ToU32(4 + ReadU32(data) as nat) as int;
      if end < 4 || end > |data| then None
      else Some(Utf8.DecodeRunes(data[4..end]))
  }

  /** A message laid out as the kernel writes it, a length and then the
      UTF-8 text, gives back that text whatever bytes follow. */
  lemma CommandTextRoundTrip(t: string, trailing: seq<byte>)
    requires |Utf8.EncodeRunes(t)| + 4 < U32Modulus
    ensures CommandText(LeU32(|Utf8.EncodeRunes(t)| as u32) + Utf8.EncodeRunes(t) + trailing) == Some(t)
  {
    var e := Utf8.EncodeRunes(t);
    var n := |e| as u32;
    var data := LeU32(n) + e + trailing;
    assert data == LeU32(n) + (e + trailing);
    ReadU32Prefix(LeU32(n), e + trailing);
    U32RoundTrip(n);
    assert ReadU32(data) == n;
    assert data[4..4 + |e|] == e;
    Utf8.DecodeEncodeRunes(t);
  }

  /** A text switch on the trimmed runes sees the multi-byte no-break space
      after the digit as white space: bytes 31 C2 A0 still block. */
  lemma NoBreakSpaceIsTrimmed()
    ensures CommandText([3, 0, 0, 0, 0x31, 0xC2, 0xA0]).Some?
    ensures ParseToggle(CommandText([3, 0, 0, 0, 0x31, 0xC2, 0xA0]).value) == BlockCmd
  {
    var t := ['1', '\U{00A0}'];
    assert Utf8.EncodeRune('1') == [0x31];
    assert Utf8.EncodeRune('\U{00A0}') == [0xC2, 0xA0];
    assert t[1..][1..] == [];
    assert Utf8.EncodeRunes(t) == [0x31, 0xC2, 0xA0];
    assert LeU32(3) == [3, 0, 0, 0];
    CommandTextRoundTrip(t, []);
    assert [3, 0, 0, 0] + [0x31, 0xC2, 0xA0] + [] == [3 as byte, 0, 0, 0, 0x31, 0xC2, 0xA0];
    ParseTogglePadded([], '1', ['\U{00A0}']);
    assert [] + ['1'] + ['\U{00A0}'] == t;
  }

  /** A length prefix running past the message's own data reads on into the
      zeroed rest of the buffer instead of panicking: a five-byte Data
      announcing five bytes of text gives "1" and four NUL characters, which
      TrimSpace keeps, so the command is unknown and the loop goes on. */
  lemma ShortDataReadsPadding(pad: nat)
    requires pad >= 4
    ensures CommandText([5, 0, 0, 0, 0x31] + Zeros(pad)) == Some(NulPadded)
    ensures MessageCommand([5, 0, 0, 0, 0x31] + Zeros(pad)) == Some(UnknownCmd(NulPadded))
  {
    var data := [5 as byte, 0, 0, 0, 0x31] + Zeros(pad);
    assert data[..4] == [5, 0, 0, 0];
    assert ReadU32(data) == 5;
    assert data[4..9] == [0x31, 0, 0, 0, 0];
    NulPaddedDecodes();
    NulPaddedUnknown();
  }

  /** "1" and four NUL characters. */
  const NulPadded: string := ['1', '\0', '\0', '\0', '\0']

  lemma NulPaddedDecodes()
    ensures Utf8.DecodeRunes([0x31, 0, 0, 0, 0]) == NulPadded
  {
    var b: seq<byte> := [0x31, 0, 0, 0, 0];
    Utf8.DecodeAscii(b);
    var t := Utf8.DecodeRunes(b);
    assert t[0] == '1' && t[1] == '\0' && t[2] == '\0' && t[3] == '\0' && t[4] == '\0';
  }

  /** NUL is not white space, so the text is neither "0" nor "1". */
  lemma NulPaddedUnknown()
    ensures ParseToggle(NulPadded) == UnknownCmd(NulPadded)
  {
    Text.TrimSpaceOf([], NulPadded, []);
    assert [] + NulPadded + [] == NulPadded;
  }

  /** `n` zero bytes. */
  function Zeros(n: nat): (z: seq<byte>)
    ensures |z| == n && forall k :: 0 <= k < n ==> z[k] == 0
  {
    seq(n, _ => 0)
  }

  // ---------------------------------------------------------------------
  // Receiving

  /** The receive buffer `make([]byte, syscall.Getpagesize())` after
      Recvfrom has filled its first bytes with `read`: the rest stays zero. */
  function PageBuffer(read: seq<byte>, pageSize: nat): (buf: seq<byte>)
    requires |read| <= pageSize
    ensures |buf| == pageSize && buf[..|read|] == read
  {
    read + Zeros(pageSize - |read|)
  }

  /** The messages of one Recv, each as the capacity view of its Data: from
      where ParseNetlinkMessage says its data starts to the end of the page
      buffer. A failed Recv or a failed parse gives no message. */
  function Messages(read: Option<seq<byte>>, pageSize: nat): (msgs: seq<seq<byte>>)
    requires read.Some? ==> |read.value| <= pageSize
    ensures !Netlink.Recv(read).Received? ==> msgs == []
    ensures Netlink.Recv(read).Received? && Netlink.MessageStarts(read.value, 0).None? ==> msgs == []
    ensures read.Some? ==> forall k :: 0 <= k < |msgs| ==> pageSize - |read.value| <= |msgs[k]| <= pageSize - Netlink.NlmsgHdrLen
    ensures Netlink.Recv(read).Received? && Netlink.MessageStarts(read.value, 0).Some? ==>
              var starts := Netlink.MessageStarts(read.value, 0).value;
              && |msgs| == |starts|
              && forall k :: 0 <= k < |starts| ==> msgs[k] == read.value[starts[k]..] + Zeros(pageSize - |read.value|)
  {
    match Netlink.Recv(read)
    case Received(b) =>
      (match Netlink.MessageStarts(b, 0)
       case None => []
       case Some(starts) => Views(b, starts, pageSize))
    case _ => []
  }

  /** The page buffer seen from each data start to its end. */
  function Views(read: seq<byte>, starts: seq<nat>, pageSize: nat): (msgs: seq<seq<byte>>)
    requires |read| <= pageSize
    requires forall k :: 0 <= k < |starts| ==> Netlink.NlmsgHdrLen <= starts[k] <= |read|
    ensures |msgs| == |starts|
    ensures forall k :: 0 <= k < |starts| ==> msgs[k] == read[starts[k]..] + Zeros(pageSize - |read|)
  {
    var buf := PageBuffer(read, pageSize);
    assert buf == read + Zeros(pageSize - |read|);
    assert forall k :: 0 <= k < |starts| ==> buf[starts[k]..] == read[starts[k]..] + Zeros(pageSize - |read|);
    seq(|starts|, k requires 0 <= k < |starts| => buf[starts[k]..])
  }

  // ---------------------------------------------------------------------
  // The receive loop

  /** How a round of the receive loop ends: ready for the next Recv, waiting
      forever for a completion signal, or crashed by a malformed message. */
  datatype Status = Running | Stuck | Crashed

  datatype Round = Round(state: CoreState, seqNum: u32, fs: Fs, replies: seq<Sent>, status: Status)

  /** What one message asks for, from the capacity view of its data: the
      toggle its text names, or None when decoding it panics. */
  function MessageCommand(data: seq<byte>): (c: Option<Toggle>)
    ensures c.None? <==> CommandText(data).None?
  {
    match CommandText(data)
    case None => None
    case Some(text) => Some(ParseToggle(text))
  }

  /** The command of each message, in order. */
  function Commands(msgs: seq<seq<byte>>): seq<Option<Toggle>> {
    seq(|msgs|, k requires 0 <= k < |msgs| => MessageCommand(msgs[k]))
  }

  /** The commands of one Recv handled in order, each by the toggle it
      names, until a message panics or leaves the loop waiting. */
  function Dispatch(st: CoreState, seqNum: u32, pid: u32, fs: Fs, cmds: seq<Option<Toggle>>): (r: Round)
    ensures |r.replies| <= |cmds|
    ensures SameFiles(fs, r.fs)
    decreases |cmds|
  {
    if cmds == [] then Round(st, seqNum, fs, [], Running)
    else
      match cmds[0]
      case None => Round(st, seqNum, fs, [], Crashed)
      case Some(cmd) =>
        var o := ToggleSpec(st, seqNum, fs, cmd);
        if o.stuck then Round(o.state, o.seqNum, o.fs, [], Stuck)
        else
          var rest := Dispatch(o.state, o.seqNum, pid, o.fs, cmds[1..]);
          rest.(replies := (if o.reply.Some? then [o.reply.value] else []) + rest.replies)
  }

  /** Adding after a wrap is adding before it. */
  lemma ToU32Shift(a: nat, k: nat)
    ensures ToU32(ToU32(a + 1) as nat + k) == ToU32(a + 1 + k)
  {
    var w := ToU32(a + 1) as nat;
    ToU32Congruent(a + 1);
    ModCongruent(w + k, a + 1 + k);
  }

  lemma ModCongruent(x: nat, y: nat)
    requires (x - y) % U32Modulus == 0
    ensures x % U32Modulus == y % U32Modulus
  {
    var d := (x - y) / U32Modulus;
    assert x - y == d * U32Modulus;
    assert x == y + d * U32Modulus;
  }

  function ReplyList(reply: Option<Sent>): seq<Sent> {
    if reply.Some? then [reply.value] else []
  }

  /** A round after the replies already sent. */
  function Prepend(sent: seq<Sent>, r: Round): Round {
    r.(replies := sent + r.replies)
  }

  /** The first message of a round, when it decodes and does not leave the
      loop waiting, is handled before the rest. */
  lemma DispatchCons(st: CoreState, seqNum: u32, pid: u32, fs: Fs, cmds: seq<Option<Toggle>>, o: Toggled)
    requires cmds != [] && cmds[0].Some?
    requires o == ToggleSpec(st, seqNum, fs, cmds[0].value) && !o.stuck
    ensures Dispatch(st, seqNum, pid, fs, cmds) == Prepend(ReplyList(o.reply), Dispatch(o.state, o.seqNum, pid, o.fs, cmds[1..]))
  {
  }

  lemma PrependTwice(a: seq<Sent>, b: seq<Sent>, r: Round)
    ensures Prepend(a, Prepend(b, r)) == Prepend(a + b, r)
  {
    assert a + (b + r.replies) == (a + b) + r.replies;
  }

  /** How a round continues after its first command. */
  lemma DispatchOne(st: CoreState, seqNum: u32, pid: u32, fs: Fs, cmds: seq<Option<Toggle>>, o: Toggled)
    requires cmds != [] && cmds[0].Some? && o == ToggleSpec(st, seqNum, fs, cmds[0].value)
    ensures o.stuck ==> Dispatch(st, seqNum, pid, fs, cmds) == Round(o.state, o.seqNum, o.fs, [], Stuck)
    ensures !o.stuck ==> Dispatch(st, seqNum, pid, fs, cmds) == Prepend(ReplyList(o.reply), Dispatch(o.state, o.seqNum, pid, o.fs, cmds[1..]))
  {
  }

  /** A round that ends at once sends nothing and leaves the counter. */
  lemma DispatchStops(st: CoreState, seqNum: u32, pid: u32, fs: Fs, cmds: seq<Option<Toggle>>)
    requires cmds == [] || cmds[0].None? || ToggleSpec(st, seqNum, fs, cmds[0].value).stuck
    ensures Dispatch(st, seqNum, pid, fs, cmds).replies == []
    ensures Dispatch(st, seqNum, pid, fs, cmds).seqNum == seqNum
  {
  }

  /** The k-th reply of a round carries the k-th sequence number after the
      one the round started with, wrapping at 2^32, and the digit "0" or
      "1"; the counter ends advanced by the number of replies. */
  lemma {:induction false} DispatchNumbersReplies(st: CoreState, seqNum: u32, pid: u32, fs: Fs, cmds: seq<Option<Toggle>>)
    ensures var r := Dispatch(st, seqNum, pid, fs, cmds);
            r.seqNum == ToU32(seqNum as nat + |r.replies|) && NumberedFrom(r.replies, seqNum)
    decreases |cmds|
  {
    var r := Dispatch(st, seqNum, pid, fs, cmds);
    if cmds == [] || cmds[0].None? || ToggleSpec(st, seqNum, fs, cmds[0].value).stuck {
      DispatchStops(st, seqNum, pid, fs, cmds);
    } else {
      var o := ToggleSpec(st, seqNum, fs, cmds[0].value);
      DispatchCons(st, seqNum, pid, fs, cmds, o);
      DispatchNumbersReplies(o.state, o.seqNum, pid, o.fs, cmds[1..]);
      var rest := Dispatch(o.state, o.seqNum, pid, o.fs, cmds[1..]);
      if o.reply.Some? {
        assert r.replies == [o.reply.value] + rest.replies;
        ToU32Shift(seqNum as nat, |rest.replies|);
        NumberedAfter(o.reply.value, rest.replies, seqNum);
      } else {
        assert r.replies == rest.replies;
      }
    }
  }

  /** Replies numbered from seqNum + 1 onwards after one numbered
      seqNum + 1 are numbered from seqNum onwards. */
  predicate NumberedFrom(replies: seq<Sent>, seqNum: u32) {
    forall k :: 0 <= k < |replies| ==>
      replies[k].seqNo == ToU32(seqNum as nat + k + 1)
      && (replies[k].text == ReplyUnblocked || replies[k].text == ReplyBlocked)
  }

  lemma NumberedAfter(first: Sent, rest: seq<Sent>, seqNum: u32)
    requires first.seqNo == ToU32(seqNum as nat + 1)
    requires first.text == ReplyUnblocked || first.text == ReplyBlocked
    requires NumberedFrom(rest, ToU32(seqNum as nat + 1))
    ensures NumberedFrom([first] + rest, seqNum)
  {
    forall k | 1 <= k < |[first] + rest|
      ensures ([first] + rest)[k].seqNo == ToU32(seqNum as nat + k + 1)
    {
      assert ([first] + rest)[k] == rest[k - 1];
      ToU32Shift(seqNum as nat, k);
    }
  }

  /** An unknown command is passed over without effect. */
  lemma DispatchSkipsUnknown(st: CoreState, seqNum: u32, pid: u32, fs: Fs, cmds: seq<Option<Toggle>>)
    requires cmds != [] && cmds[0].Some? && cmds[0].value.UnknownCmd?
    ensures Dispatch(st, seqNum, pid, fs, cmds) == Dispatch(st, seqNum, pid, fs, cmds[1..])
  {
    assert ToggleSpec(st, seqNum, fs, cmds[0].value) == Toggled(st, seqNum, fs, None, false);
  }

  /** Texts that are neither "0" nor "1" after trimming are skipped: the
      state, the counter and the files stay, and nothing is sent. */
  lemma UnknownTextsChangeNothing(st: CoreState, seqNum: u32, pid: u32, fs: Fs, msgs: seq<seq<byte>>)
    requires forall k :: 0 <= k < |msgs| ==> CommandText(msgs[k]).Some? && ParseToggle(CommandText(msgs[k]).value).UnknownCmd?
    ensures Dispatch(st, seqNum, pid, fs, Commands(msgs)) == Round(st, seqNum, fs, [], Running)
  {
    var cmds := Commands(msgs);
    forall k | 0 <= k < |cmds|
      ensures cmds[k].Some? && cmds[k].value.UnknownCmd?
    {
      assert cmds[k] == MessageCommand(msgs[k]);
    }
    DispatchAllUnknown(st, seqNum, pid, fs, cmds);
  }

  lemma {:induction false} DispatchAllUnknown(st: CoreState, seqNum: u32, pid: u32, fs: Fs, cmds: seq<Option<Toggle>>)
    requires forall k :: 0 <= k < |cmds| ==> cmds[k].Some? && cmds[k].value.UnknownCmd?
    ensures Dispatch(st, seqNum, pid, fs, cmds) == Round(st, seqNum, fs, [], Running)
    decreases |cmds|
  {
    if cmds != [] {
      DispatchSkipsUnknown(st, seqNum, pid, fs, cmds);
      DispatchAllUnknown(st, seqNum, pid, fs, cmds[1..]);
    }
  }

  /** The datagrams sent so far are the encodings of the replies. */
  predicate Encoded(replies: seq<seq<byte>>, sent: seq<Sent>, pid: u32) {
    |replies| == |sent| && forall k :: 0 <= k < |replies| ==> replies[k] == Datagram(sent[k], pid)
  }

  lemma EncodedAppend(replies: seq<seq<byte>>, sent: seq<Sent>, pid: u32, s: Sent)
    requires Encoded(replies, sent, pid)
    ensures Encoded(replies + [Datagram(s, pid)], sent + [s], pid)
  {
  }

  /** One command of a round, from the loop's point of view: a message that
      does not decode ends the round, a command that leaves the loop waiting
      ends it, any other adds its reply and goes on with the rest. */
  lemma RoundStep(spec: Round, sent: seq<Sent>, st: CoreState, seqNum: u32, pid: u32, fs: Fs,
                  cmds: seq<Option<Toggle>>, i: nat, o: Toggled)
    requires i < |cmds| && cmds[i].Some?
    requires spec == Prepend(sent, Dispatch(st, seqNum, pid, fs, cmds[i..]))
    requires o == ToggleSpec(st, seqNum, fs, cmds[i].value)
    ensures o.stuck ==> spec == Round(o.state, o.seqNum, o.fs, sent, Stuck)
    ensures !o.stuck ==> spec == Prepend(sent + ReplyList(o.reply), Dispatch(o.state, o.seqNum, pid, o.fs, cmds[i + 1..]))
  {
    assert cmds[i..][0] == cmds[i] && cmds[i..][1..] == cmds[i + 1..];
    DispatchOne(st, seqNum, pid, fs, cmds[i..], o);
    if o.stuck {
      assert sent + [] == sent;
    } else {
      PrependTwice(sent, ReplyList(o.reply), Dispatch(o.state, o.seqNum, pid, o.fs, cmds[i + 1..]));
    }
  }

  lemma RoundCrash(spec: Round, sent: seq<Sent>, st: CoreState, seqNum: u32, pid: u32, fs: Fs,
                   cmds: seq<Option<Toggle>>, i: nat)
    requires i < |cmds| && cmds[i].None?
    requires spec == Prepend(sent, Dispatch(st, seqNum, pid, fs, cmds[i..]))
    ensures spec == Round(st, seqNum, fs, sent, Crashed)
  {
    assert cmds[i..][0] == cmds[i];
    assert sent + [] == sent;
  }

  lemma RoundEnd(spec: Round, sent: seq<Sent>, st: CoreState, seqNum: u32, pid: u32, fs: Fs,
                 cmds: seq<Option<Toggle>>)
    requires spec == Prepend(sent, Dispatch(st, seqNum, pid, fs, cmds[|cmds|..]))
    ensures spec == Round(st, seqNum, fs, sent, Running)
  {
    assert cmds[|cmds|..] == [];
    assert sent + [] == sent;
  }

  /** One pass of the `for` loop of NetlinkRecvHandler: Recv, then handle
      the parsed messages in order. `read` is what Recvfrom delivered into
      a buffer of `pageSize` bytes (the page size is a parameter here).
      After a failed Recv or parse the message list is nil and nothing
      runs. */
  method ReceiveRound(core: CoreBlock, link: Netlink.NetlinkSocket, fs: Fs, read: Option<seq<byte>>, pageSize: nat)
    returns (fs': Fs, replies: seq<seq<byte>>, status: Status)
    requires core.Valid()
    requires read.Some? ==> |read.value| <= pageSize
    modifies core, link
    ensures core.Valid()
    ensures var d := Dispatch(old(core.State()), old(link.seqNum), link.pid, fs, Commands(Messages(read, pageSize)));
            && d == Round(core.State(), link.seqNum, fs', d.replies, status)
            && |replies| == |d.replies|
            && forall k :: 0 <= k < |replies| ==> replies[k] == Datagram(d.replies[k], link.pid)
  {
    var msgs := Messages(read, pageSize);
    fs', replies, status := HandleMessages(core, link, fs, msgs);
  }

  /** The inner `for m := range messages` loop: each message is decoded and
      toggled in turn, until one panics or leaves the loop waiting. */
  method HandleMessages(core: CoreBlock, link: Netlink.NetlinkSocket, fs: Fs, msgs: seq<seq<byte>>)
    returns (fs': Fs, replies: seq<seq<byte>>, status: Status)
    requires core.Valid()
    modifies core, link
    ensures core.Valid()
    ensures var d := Dispatch(old(core.State()), old(link.seqNum), link.pid, fs, Commands(msgs));
            && d == Round(core.State(), link.seqNum, fs', d.replies, status)
            && |replies| == |d.replies|
            && forall k :: 0 <= k < |replies| ==> replies[k] == Datagram(d.replies[k], link.pid)
  {
    ghost var cmds := Commands(msgs);
    ghost var spec := Dispatch(core.State(), link.seqNum, link.pid, fs, cmds);
    fs' := fs;
    replies := [];
    ghost var sent: seq<Sent> := [];
    assert cmds[0..] == cmds;
    assert [] + spec.replies == spec.replies;
    var i := 0;
    while i < |msgs|
      invariant 0 <= i <= |msgs|
      invariant core.Valid()
      invariant spec == Prepend(sent, Dispatch(core.State(), link.seqNum, link.pid, fs', cmds[i..]))
      invariant Encoded(replies, sent, link.pid)
    {
      var text := CommandText(msgs[i]);
      if text.None? {
        RoundCrash(spec, sent, core.State(), link.seqNum, link.pid, fs', cmds, i);
        return fs', replies, Crashed;
      }
      ghost var o := ToggleSpec(core.State(), link.seqNum, fs', ParseToggle(text.value));
      RoundStep(spec, sent, core.State(), link.seqNum, link.pid, fs', cmds, i, o);
      var reply, stuck;
      fs', reply, stuck := HandleToggle(core, link, fs', ParseToggle(text.value));
      if stuck {
        return fs', replies, Stuck;
      }
      if reply.Some? {
        EncodedAppend(replies, sent, link.pid, o.reply.value);
        replies := replies + [reply.value];
      }
      sent := sent + ReplyList(o.reply);
      i := i + 1;
    }
    RoundEnd(spec, sent, core.State(), link.seqNum, link.pid, fs', cmds);
    status := Running;
  }

  // ---------------------------------------------------------------------
  // BgCgroupHandler

  /** The package-level `bgCgroupHandlerStarted` flag, false at start. */
  class BgCgroupWatch {
    var started: bool

    constructor ()
      ensures !started
    {
      started := false;
    }

    /** BgCgroupHandler up to handing its work to GroupRequests: a second
        call returns at once; the first sets the flag before anything can
        fail, then opens the watched cgroup's tasks for reading and the bg
        cpuset's tasks for writing. `armed` says the work was registered. */
    method Start(fs: Fs, src: Path) returns (armed: bool)
      modifies this
      ensures started
      ensures armed <==> StartArms(old(started), fs, src)
    {
      if started {
        return false;
      }
      started := true;
      armed := CanOpenRead(fs, src) && CanOpenWrite(fs, BgCpusetTasks);
    }
  }

  /** Whether BgCgroupHandler registers its work. */
  predicate StartArms(started: bool, fs: Fs, src: Path) {
    !started && CanOpenRead(fs, src) && CanOpenWrite(fs, BgCpusetTasks)
  }

  /** The registered work: reopen the watched cgroup's tasks by path and
      copy them into the bg cpuset through the writer opened at
      registration (so `BgCpusetTasks` is writable). A watched file that no
      longer opens is an error with no write. */
  function BgCgroupWork(fs: Fs, src: Path): (r: Outcome)
    requires CanOpenWrite(fs, BgCpusetTasks)
    ensures !CanOpenRead(fs, src) ==> r == Outcome(fs, false)
    ensures CanOpenRead(fs, src) ==>
              var lines := ScanLines(fs.contents[src]);
              var k := Accepted(fs, BgCpusetTasks, |lines|);
              r.fs.log == fs.log + ChunksOf(BgCpusetTasks, lines[..k]) && (r.ok <==> k == |lines|)
  {
    if !CanOpenRead(fs, src) then Migrate(fs, src, BgCpusetTasks)
    else
      MigrateWrites(fs, src, BgCpusetTasks);
      Migrate(fs, src, BgCpusetTasks)
  }
}

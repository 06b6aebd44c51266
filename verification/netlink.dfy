/** The outbound netlink frame of netlink.go and the per-send state around
    it: the package-level sequence counter and the pid the socket is bound
    to. */
module Netlink {
  import opened Wire
  import opened Opt

  /** syscall.NLMSG_HDRLEN */
  const NlmsgHdrLen: nat := 16

  /** The magic string "@" as the one byte that Bytes() emits for it. */
  const MagicMarker: seq<byte> := [0x40]

  /** Bytes that follow the netlink header before the payload: the magic
      byte and the 4-byte payload length. */
  const PreambleLen: nat := 1 + 4

  /** syscall.NlMsghdr */
  datatype Header = Header(len: u32, typ: u16, flags: u16, seqNo: u32, pid: u32)

  /** The fields of a NetlinkPacket, as values. */
  datatype Frame = Frame(hdr: Header, magic: seq<byte>, length: u32, data: seq<byte>)

  /** binary.Write of an NlMsghdr in little-endian order. */
  function EncodeHeader(h: Header): (r: seq<byte>)
    ensures |r| == NlmsgHdrLen
  {
    LeU32(h.len) + LeU16(h.typ) + LeU16(h.flags) + LeU32(h.seqNo) + LeU32(h.pid)
  }

  function DecodeHeader(b: seq<byte>): Header
    requires |b| >= NlmsgHdrLen
  {
    Header(ReadU32(b), ReadU16(b[4..]), ReadU16(b[6..]), ReadU32(b[8..]), ReadU32(b[12..]))
  }

  /** NetlinkPacket.Bytes: header, then the magic, then the payload length
      as a little-endian u32, then the payload. */
  function EncodeFrame(f: Frame): (r: seq<byte>)
    ensures |r| == NlmsgHdrLen + |f.magic| + 4 + |f.data|
  {
    EncodeHeader(f.hdr) + f.magic + LeU32(f.length) + f.data
  }

  /** Where each field of a frame sits in its bytes. */
  lemma EncodeFrameLayout(f: Frame)
    ensures var r := EncodeFrame(f);
            && r[..NlmsgHdrLen] == EncodeHeader(f.hdr)
            && r[NlmsgHdrLen..NlmsgHdrLen + |f.magic|] == f.magic
            && r[NlmsgHdrLen + |f.magic|..NlmsgHdrLen + |f.magic| + 4] == LeU32(f.length)
            && r[NlmsgHdrLen + |f.magic| + 4..] == f.data
  {
    var h := EncodeHeader(f.hdr);
    var r := EncodeFrame(f);
    assert r[..|h|] == h;
    assert r[|h|..|h| + |f.magic|] == f.magic;
  }

  /** Reading a byte frame with a one-byte magic back into its fields. */
  function DecodeFrame(b: seq<byte>): (r: Option<Frame>)
    ensures r.Some? <==> |b| >= NlmsgHdrLen + PreambleLen
  {
    if |b| < NlmsgHdrLen + PreambleLen then None
    else Some(Frame(DecodeHeader(b[..NlmsgHdrLen]), b[NlmsgHdrLen..NlmsgHdrLen + 1],
                    ReadU32(b[NlmsgHdrLen + 1..NlmsgHdrLen + PreambleLen]), b[NlmsgHdrLen + PreambleLen..]))
  }

  /** The header bytes as their five fields, each followed by the rest. */
  lemma HeaderPieces(h: Header)
    ensures var b := EncodeHeader(h);
            && b == LeU32(h.len) + b[4..]
            && b[4..] == LeU16(h.typ) + b[6..]
            && b[6..] == LeU16(h.flags) + b[8..]
            && b[8..] == LeU32(h.seqNo) + b[12..]
            && b[12..] == LeU32(h.pid)
  {
    var p1, p2, p3, p4, p5 := LeU32(h.len), LeU16(h.typ), LeU16(h.flags), LeU32(h.seqNo), LeU32(h.pid);
    var b := EncodeHeader(h);
    assert b == p1 + (p2 + (p3 + (p4 + p5)));
    assert b[4..] == p2 + (p3 + (p4 + p5));
    assert b[6..] == p3 + (p4 + p5);
    assert b[8..] == p4 + p5;
  }

  lemma HeaderRoundTrip(h: Header)
    ensures DecodeHeader(EncodeHeader(h)) == h
  {
    var b := EncodeHeader(h);
    HeaderPieces(h);
    U32RoundTrip(h.len);
    U16RoundTrip(h.typ);
    U16RoundTrip(h.flags);
    U32RoundTrip(h.seqNo);
    U32RoundTrip(h.pid);
    ReadU32Prefix(LeU32(h.len), b[4..]);
    ReadU16Prefix(LeU16(h.typ), b[6..]);
    ReadU16Prefix(LeU16(h.flags), b[8..]);
    ReadU32Prefix(LeU32(h.seqNo), b[12..]);
  }

  /** Every frame with a one-byte magic survives encoding and decoding. */
  lemma FrameRoundTrip(f: Frame)
    requires |f.magic| == 1
    ensures DecodeFrame(EncodeFrame(f)) == Some(f)
  {
    var b := EncodeFrame(f);
    EncodeFrameLayout(f);
    HeaderRoundTrip(f.hdr);
    U32RoundTrip(f.length);
    assert b[..NlmsgHdrLen] == EncodeHeader(f.hdr);
  }

  /** NetlinkPacket: NewNetlinkPacket, UpdateDataLength and Bytes. */
  class NetlinkPacket {
    var hdr: Header
    var magic: seq<byte>
    var length: u32
    var data: seq<byte>

    /** NewNetlinkPacket: a zero header, the magic "@", length 0, no data.
        In Go the zero packet's Data is a nil pointer, so Bytes() before
        Data is set would panic; here no data is the empty sequence, and
        every packet the daemon builds has its data set before Bytes(). */
    constructor ()
      ensures hdr == Header(0, 0, 0, 0, 0) && magic == MagicMarker
      ensures length == 0 && data == []
    {
      hdr := Header(0, 0, 0, 0, 0);
      magic := MagicMarker;
      length := 0;
      data := [];
    }

    /** The header length counts the header, the magic, the length field and
        the payload, in uint32 arithmetic. */
    method UpdateDataLength(dataLen: u32)
      modifies this
      ensures hdr == old(hdr).(len := ToU32(NlmsgHdrLen + PreambleLen + dataLen as nat))
      ensures length == dataLen
      ensures magic == old(magic) && data == old(data)
    {
      hdr := hdr.(len := ToU32(NlmsgHdrLen + PreambleLen + dataLen as nat));
      length := dataLen;
    }

    function Fields(): Frame
      reads this
    {
      Frame(hdr, magic, length, data)
    }

    function Bytes(): seq<byte>
      reads this
    {
      EncodeFrame(Fields())
    }
  }

  /** The frame Send builds for payload b with sequence number seqNo from a
      socket bound to pid. */
  function SendFrame(b: seq<byte>, seqNo: u32, pid: u32): (f: Frame)
    ensures f.magic == MagicMarker && f.data == b
    ensures f.hdr.seqNo == seqNo && f.hdr.pid == pid && f.hdr.typ == 0 && f.hdr.flags == 0
    ensures |b| + NlmsgHdrLen + PreambleLen < U32Modulus ==>
              f.hdr.len as int == NlmsgHdrLen + PreambleLen + |b| && f.length as int == |b|
  {
    var realLength := ToU32(|b|);
    Frame(Header(ToU32(NlmsgHdrLen + PreambleLen + realLength as nat), 0, 0, seqNo, pid), MagicMarker, realLength, b)
  }

  /** The datagram Send hands to the kernel is exactly as long as its header
      says. */
  lemma SendFrameLength(b: seq<byte>, seqNo: u32, pid: u32)
    requires |b| + NlmsgHdrLen + PreambleLen < U32Modulus
    ensures |EncodeFrame(SendFrame(b, seqNo, pid))| == SendFrame(b, seqNo, pid).hdr.len as int
  {
  }

  /** The receiving side finds the payload length at bytes 17..21 and the
      payload unchanged from byte 21 on. */
  lemma SendFramePayload(b: seq<byte>, seqNo: u32, pid: u32)
    requires |b| + NlmsgHdrLen + PreambleLen < U32Modulus
    ensures var bytes := EncodeFrame(SendFrame(b, seqNo, pid));
            && bytes[NlmsgHdrLen] == 0x40
            && ReadU32(bytes[NlmsgHdrLen + 1..NlmsgHdrLen + PreambleLen]) as int == |b|
            && bytes[NlmsgHdrLen + PreambleLen..] == b
  {
    var f := SendFrame(b, seqNo, pid);
    EncodeFrameLayout(f);
    U32RoundTrip(f.length);
  }

  /** The netlink socket together with the package-level SeqNum counter it
      stamps into every frame it sends. */
  class NetlinkSocket {
    /** nl.Addr.Pid: the process id the socket was bound with. */
    const pid: u32
    /** The package-level SeqNum, starting at 0. */
    var seqNum: u32

    constructor (pid: u32)
      ensures this.pid == pid && seqNum == 0
    {
      this.pid := pid;
      seqNum := 0;
    }

    /** Send: increment SeqNum, build the packet and return the bytes handed
        to Sendmsg (whose own result is a syscall and is not modelled). */
    method Send(b: seq<byte>) returns (datagram: seq<byte>)
      modifies this
      ensures seqNum == ToU32(old(seqNum) as nat + 1)
      ensures datagram == EncodeFrame(SendFrame(b, seqNum, pid))
    {
      var pkt := new NetlinkPacket();
      var realLength := ToU32(|b|);
      seqNum := ToU32(seqNum as nat + 1);
      pkt.UpdateDataLength(realLength);
      pkt.hdr := pkt.hdr.(seqNo := seqNum);
      pkt.hdr := pkt.hdr.(pid := pid);
      pkt.data := b;
      datagram := pkt.Bytes();
    }
  }

  datatype RecvResult = Received(buffer: seq<byte>) | RecvFailed | ShortMessage(received: nat)

  /** The checks of Recv before the buffer is handed to the netlink message
      parser: a failed read, or fewer bytes than a netlink header, is an
      error. */
  function Recv(read: Option<seq<byte>>): (r: RecvResult)
    ensures r.Received? <==> read.Some? && |read.value| >= NlmsgHdrLen
    ensures r.Received? ==> r.buffer == read.value
    ensures r.ShortMessage? ==> r.received < NlmsgHdrLen
  {
    match read
    case None => RecvFailed
    case Some(b) => if |b| < NlmsgHdrLen then ShortMessage(|b|) else Received(b)
  }

  /** nlmAlignOf: a message length rounded up to a multiple of four. */
  function Align4(n: nat): (a: nat)
    ensures a % 4 == 0 && n <= a < n + 4
  {
    (n + 3) / 4 * 4
  }

  /** The Len field of the header at offset h. */
  function LenAt(b: seq<byte>, h: nat): nat
    requires h + NlmsgHdrLen <= |b|
  {
    ReadU32(b[h..]) as nat
  }

  /** syscall.ParseNetlinkMessage on the bytes Recv read, from offset off:
      while a header fits, it reads the header's Len (little-endian on the
      daemon's target); a Len below the header size or an aligned Len past
      the end of the bytes is an error that discards every message;
      otherwise the message's data starts right after its header and the
      next message at the aligned Len. The result is where each message's
      data starts. MessageStartsChain states the whole parse. */
  function MessageStarts(b: seq<byte>, off: nat): (r: Option<seq<nat>>)
    requires off <= |b|
    ensures |b| - off < NlmsgHdrLen ==> r == Some([])
    ensures |b| - off >= NlmsgHdrLen && (LenAt(b, off) < NlmsgHdrLen || Align4(LenAt(b, off)) > |b| - off) ==> r.None?
    ensures r.Some? && |b| - off >= NlmsgHdrLen ==> |r.value| >= 1 && r.value[0] == off + NlmsgHdrLen
    ensures r.Some? ==> forall k :: 0 <= k < |r.value| ==> off + NlmsgHdrLen <= r.value[k] <= |b|
    decreases |b| - off
  {
    if |b| - off < NlmsgHdrLen then Some([])
    else
      var len := LenAt(b, off);
      if len < NlmsgHdrLen || Align4(len) > |b| - off then None
      else
        match MessageStarts(b, off + Align4(len))
        case None => None
        case Some(rest) => Some([off + NlmsgHdrLen] + rest)
  }

  /** The header at h has a Len of at least a header, and its message,
      aligned, fits in the bytes read. */
  ghost predicate HeaderFits(b: seq<byte>, h: nat) {
    h + NlmsgHdrLen <= |b| && NlmsgHdrLen <= LenAt(b, h) && h + Align4(LenAt(b, h)) <= |b|
  }

  /** Where the header after the one at h starts. */
  function NextHeader(b: seq<byte>, h: nat): nat
    requires h + NlmsgHdrLen <= |b|
  {
    h + Align4(LenAt(b, h))
  }

  /** `starts` lists the data of a chain of messages from offset off: each
      header's Len is at least a header and its aligned message fits in the
      bytes read; each message's data starts right after its header; the
      next header follows at the aligned Len; and after the last message
      less than a header is left. */
  ghost predicate Chain(b: seq<byte>, off: nat, starts: seq<nat>)
    decreases |starts|
  {
    if starts == [] then off <= |b| && |b| - off < NlmsgHdrLen
    else HeaderFits(b, off) && starts[0] == off + NlmsgHdrLen && Chain(b, NextHeader(b, off), starts[1..])
  }

  /** A successful parse is such a chain. So a bad Len on any header along
      the way discards every message. */
  lemma {:induction false} MessageStartsChain(b: seq<byte>, off: nat)
    requires off <= |b| && MessageStarts(b, off).Some?
    ensures Chain(b, off, MessageStarts(b, off).value)
    decreases |b| - off
  {
    var starts := MessageStarts(b, off).value;
    if |b| - off >= NlmsgHdrLen {
      var next := NextHeader(b, off);
      MessageStartsChain(b, next);
      assert starts[1..] == MessageStarts(b, next).value;
    }
  }

  /** Every chain of messages is what the parse returns. */
  lemma {:induction false} ChainMessageStarts(b: seq<byte>, off: nat, starts: seq<nat>)
    requires Chain(b, off, starts)
    ensures off <= |b| && MessageStarts(b, off) == Some(starts)
    decreases |starts|
  {
    if starts != [] {
      ChainMessageStarts(b, NextHeader(b, off), starts[1..]);
      assert starts == [off + NlmsgHdrLen] + starts[1..];
    }
  }

  /** A bad Len on the second header discards the first message too. */
  lemma SecondBadLenDropsAll(b: seq<byte>)
    requires HeaderFits(b, 0) && NextHeader(b, 0) + NlmsgHdrLen <= |b|
    requires LenAt(b, NextHeader(b, 0)) < NlmsgHdrLen
    ensures MessageStarts(b, 0).None?
  {
    assert MessageStarts(b, NextHeader(b, 0)).None?;
  }

  /** A buffer holding exactly one message whose aligned Len is the whole
      buffer yields that one message, its data after the header. */
  lemma OneMessage(b: seq<byte>)
    requires |b| >= NlmsgHdrLen && Align4(ReadU32(b) as nat) == |b| && ReadU32(b) as nat >= NlmsgHdrLen
    ensures MessageStarts(b, 0) == Some([NlmsgHdrLen])
  {
    assert b[0..] == b;
    var len := ReadU32(b[0..]) as nat;
    assert 0 + Align4(len) == |b|;
    assert MessageStarts(b, |b|) == Some([]);
    assert [0 + NlmsgHdrLen] + [] == [NlmsgHdrLen];
  }

  /** A header whose Len is shorter than a header loses the whole read. */
  lemma ShortLenDropsAll(b: seq<byte>)
    requires |b| >= NlmsgHdrLen && (ReadU32(b) as nat) < NlmsgHdrLen
    ensures MessageStarts(b, 0).None?
  {
    assert b[0..] == b;
  }
}

/** Commands on the wire.  A command is sent as a prefix of its C record, as long as its
    protocol version says; the receiver reads the shortest record first and the rest when it
    knows the version.  The Apache module puts a reply together from fragments. */
module Framing {
  import opened Bytes
  import opened Protocol

  // The records of versions 1, 2 and 3; versions 2 and 3 end in alignment padding.
  const V1_SIZE := 20
  const V2_SIZE := 64
  const SIZE := 144
  // Where the fields of the whole record start.
  const NAME := 20
  const MIME := 61
  const OPTIONS := 102
  const PADDING := 143
  const XMLCONFIG_MAX := 41

  function Zeros(n: nat): (s: seq<Byte>)
    ensures |s| == n && forall i :: 0 <= i < n ==> s[i] == 0
  {
    seq(n, _ => 0)
  }

  function Ver(bytes: seq<Byte>): int
    requires |bytes| >= 4
  {
    FromLe32(bytes[..4])
  }

  predicate Known(ver: int) {
    1 <= ver <= 3
  }

  function SizeOf(ver: int): nat {
    if ver == 1 then V1_SIZE else if ver == 2 then V2_SIZE else SIZE
  }

  /** What a record looks like on the wire. */
  function Frame(image: seq<Byte>): (f: seq<Byte>)
    requires |image| == SIZE && Known(Ver(image))
    ensures |f| == SizeOf(Ver(image))
  {
    image[..SizeOf(Ver(image))]
  }

  /** A record of which only these bytes arrived. */
  function Padded(bytes: seq<Byte>): (image: seq<Byte>)
    requires |bytes| <= SIZE
    ensures |image| == SIZE
  {
    bytes + Zeros(SIZE - |bytes|)
  }

  /** memset to zero */
  method Clear(dst: array<Byte>)
    modifies dst
    ensures dst[..] == Zeros(dst.Length)
  {
    for i := 0 to dst.Length
      invariant forall j :: 0 <= j < i ==> dst[j] == 0
    {
      dst[i] := 0;
    }
  }

  // ------------------------------------------------------------ sending and receiving

  /** One direction of a connection: the bytes sent and not yet received.  When they are used
      up the peer has closed it. */
  class Stream {
    var bytes: seq<Byte>
    const flaky: bool

    constructor (bytes: seq<Byte>, flaky: bool)
      ensures this.bytes == bytes && this.flaky == flaky
    {
      this.bytes, this.flaky := bytes, flaky;
    }

    /** send: all of it, unless the connection is flaky. */
    method Send(data: seq<Byte>) returns (ret: int)
      modifies this`bytes
      ensures -1 <= ret <= |data| && (!flaky ==> ret == |data|)
      ensures bytes == old(bytes) + if ret > 0 then data[..ret] else []
    {
      ret := |data|;
      if flaky {
        ret :| -1 <= ret <= |data|;
      }
      if ret > 0 {
        bytes := bytes + data[..ret];
      }
    }

    /** recv when `ready` bytes can be had: with MSG_WAITALL all there will ever be, with
        MSG_DONTWAIT those that have arrived by now.  Less than one means none. */
    method Recv(dst: array<Byte>, at: nat, len: nat, ready: nat) returns (got: nat)
      requires at + len <= dst.Length && ready <= |bytes|
      modifies this`bytes, dst
      ensures got == Min(len, ready) && bytes == old(bytes)[got..]
      ensures dst[..at + got] == old(dst[..at]) + old(bytes)[..got]
      ensures dst[at + got..] == old(dst[at + got..])
    {
      got := Min(len, ready);
      Copy(dst, at, bytes[..got]);
      bytes := bytes[got..];
    }

    /** poll and recv without it: any part of what is there and wanted; nothing at the end, or on
        a timeout or an error. */
    method RecvSome(dst: array<Byte>, at: nat, len: nat) returns (got: int)
      requires 0 < len && at + len <= dst.Length
      modifies this`bytes, dst
      ensures got <= len && got <= |old(bytes)| && (got <= 0 ==> flaky || old(bytes) == [])
      ensures got > 0 ==> bytes == old(bytes)[got..] && dst[..at + got] == old(dst[..at]) + old(bytes)[..got]
      ensures got > 0 ==> dst[at + got..] == old(dst[at + got..])
      ensures got <= 0 ==> bytes == old(bytes) && dst[..] == old(dst[..])
    {
      var fails: bool := *;
      if bytes == [] || (flaky && fails) {
        return 0;
      }
      got :| 1 <= got <= len && got <= |bytes|;
      Copy(dst, at, bytes[..got]);
      bytes := bytes[got..];
    }
  }

  /** send_cmd; `isSocket` is what getsockopt says of the descriptor. */
  method SendCmd(cmd: array<Byte>, fd: int, isSocket: bool, wire: Stream) returns (ret: int)
    requires cmd.Length == SIZE
    modifies wire`bytes
    ensures fd < 0 || !Known(Ver(cmd[..])) || !isSocket ==> ret == -1 && wire.bytes == old(wire.bytes)
    ensures fd >= 0 && Known(Ver(cmd[..])) && isSocket ==>
              && -1 <= ret <= |Frame(cmd[..])| && (!wire.flaky ==> ret == |Frame(cmd[..])|)
              && wire.bytes == old(wire.bytes) + if ret > 0 then Frame(cmd[..])[..ret] else []
  {
    if fd < 0 {
      return -1;
    }
    var ver := FromLe32(cmd[..4]);
    assert cmd[..4] == cmd[..][..4];
    if ver > 3 || ver < 1 {
      return -1;
    }
    if !isSocket {
      return -1;
    }
    var len := V1_SIZE;
    if ver == 2 {
      len := V2_SIZE;
    } else if ver == 3 {
      len := SIZE;
    }
    assert cmd[..len] == cmd[..][..len];
    ret := wire.Send(cmd[..len]);
  }

  datatype Reception = Reception(ret: int, image: seq<Byte>, rest: seq<Byte>)

  /** What recv_cmd makes of a stream of which `a` bytes can be had at its first recv and `b` at
      its second: its return value, the record it filled in and what it left unread. */
  function ReceiveWhen(s: seq<Byte>, a: nat, b: nat): Reception
    requires a <= b <= |s|
  {
    if a == 0 then Reception(-1, Zeros(SIZE), s)
    else if a < V1_SIZE then Reception(0, Padded(s[..a]), s[a..])
    else if !Known(Ver(s)) then Reception(-1, Padded(s[..V1_SIZE]), s[V1_SIZE..])
    else
      var n := Min(SizeOf(Ver(s)), b);
      var ret := if Ver(s) > 1 && n == V1_SIZE then -1
                 else if n == V1_SIZE || n == V2_SIZE || n == SIZE then n
                 else 0;
      Reception(ret, Padded(s[..n]), s[n..])
  }

  /** When it may wait, everything can be had. */
  function Receive(s: seq<Byte>): Reception {
    ReceiveWhen(s, |s|, |s|)
  }

  /** One more read puts what it got behind what was there. */
  lemma ReadOn(s: seq<Byte>, n: nat, got: nat, before: seq<Byte>, after: seq<Byte>)
    requires n + got <= |s| && n + got <= SIZE == |before| == |after| && before == Padded(s[..n])
    requires after[..n + got] == before[..n] + s[n..][..got] && after[n + got..] == before[n + got..]
    ensures after == Padded(s[..n + got])
  {
    assert s[..n] + s[n..][..got] == s[..n + got];
    assert after == after[..n + got] + after[n + got..];
  }

  /** recv_cmd; when it may not wait, `a` and `b` bytes have arrived by its two reads. */
  method RecvCmd(cmd: array<Byte>, wire: Stream, block: bool, a: nat, b: nat) returns (ret: int)
    requires cmd.Length == SIZE && a <= b <= |wire.bytes|
    modifies cmd, wire`bytes
    ensures Reception(ret, cmd[..], wire.bytes) ==
            if block then Receive(old(wire.bytes)) else ReceiveWhen(old(wire.bytes), a, b)
  {
    hide FromLe32, Padded;
    ghost var s := wire.bytes;
    var first, second := a, b;
    if block {
      first, second := |wire.bytes|, |wire.bytes|;
    }
    Clear(cmd);
    assert cmd[..] == Padded(s[..0]) by { NothingYet(s); }
    ghost var before := cmd[..];
    var got := wire.Recv(cmd, 0, V1_SIZE, first);
    ReadOn(s, 0, got, before, cmd[..]);
    if got < 1 {
      NothingYet(s);
      return -1;
    } else if got < V1_SIZE {
      return 0;
    }
    assert cmd[..4] == s[..4];
    var ver := FromLe32(cmd[..4]);
    if ver > 3 || ver < 1 {
      return -1;
    }
    var more := 0;
    if ver > 1 {
      before := cmd[..];
      more := wire.Recv(cmd, V1_SIZE, SizeOf(ver) - V1_SIZE, second - V1_SIZE);
      ReadOn(s, V1_SIZE, more, before, cmd[..]);
      if more < 1 {
        return -1;
      }
    }
    got := got + more;
    if got == SIZE || got == V1_SIZE || got == V2_SIZE {
      return got;
    }
    return 0;
  }

  lemma NothingYet(s: seq<Byte>)
    ensures Padded(s[..0]) == Zeros(SIZE)
  {
  }

  /** A command is accepted exactly if its first record is there at the first read and all of it
      at the second, or if it is one of version 3 of which just as much is there as one of
      version 2 has. */
  lemma AcceptedExactly(s: seq<Byte>, a: nat, b: nat)
    requires a <= b <= |s|
    ensures ReceiveWhen(s, a, b).ret > 0 <==>
            && a >= V1_SIZE && Known(Ver(s))
            && (b >= SizeOf(Ver(s)) || (Ver(s) == 3 && b == V2_SIZE))
  {
  }

  /** Of a command that was sent, what is accepted is that command, and the next one can be
      received, exactly if it is not one of version 3 cut short like that. */
  lemma AcceptedWholeExactly(image: seq<Byte>, rest: seq<Byte>, a: nat, b: nat)
    requires |image| == SIZE && Known(Ver(image)) && a <= b <= |Frame(image) + rest|
    requires ReceiveWhen(Frame(image) + rest, a, b).ret > 0
    ensures ReceiveWhen(Frame(image) + rest, a, b) == Receive(Frame(image) + rest) <==>
            !(Ver(image) == 3 && b == V2_SIZE)
  {
    var s := Frame(image) + rest;
    assert s[..4] == image[..4];
    AcceptedExactly(s, a, b);
    if Ver(image) == 3 && b == V2_SIZE {
      assert |ReceiveWhen(s, a, b).rest| == |s| - V2_SIZE && |Receive(s).rest| == |s| - SIZE;
    }
  }

  lemma FrameReadsBack(image: seq<Byte>, rest: seq<Byte>)
    requires |image| == SIZE && Known(Ver(image))
    ensures Receive(Frame(image) + rest) == Reception(SizeOf(Ver(image)), Padded(Frame(image)), rest)
  {
    var s := Frame(image) + rest;
    assert s[..4] == image[..4];
    assert s[..|Frame(image)|] == Frame(image) && s[|Frame(image)|..] == rest;
  }

  ghost predicate Sendable(images: seq<seq<Byte>>) {
    forall i :: 0 <= i < |images| ==> |images[i]| == SIZE && Known(Ver(images[i]))
  }

  ghost function Frames(images: seq<seq<Byte>>): seq<Byte>
    requires Sendable(images)
  {
    if images == [] then [] else Frame(images[0]) + Frames(images[1..])
  }

  /** The records that `n` calls of recv_cmd return, if all succeed, and what is left. */
  ghost function ReceiveMany(s: seq<Byte>, n: nat): Option<(seq<seq<Byte>>, seq<Byte>)> {
    if n == 0 then Some(([], s))
    else
      var r := Receive(s);
      if r.ret <= 0 then None
      else
        match ReceiveMany(r.rest, n - 1)
        case None => None
        case Some((images, rest)) => Some(([r.image] + images, rest))
  }

  ghost function Arrived(images: seq<seq<Byte>>): seq<seq<Byte>>
    requires Sendable(images)
  {
    seq(|images|, i requires 0 <= i < |images| => Padded(Frame(images[i])))
  }

  /** However versions are mixed, the receiver finds every boundary: it gets the commands in
      order, cut to what their versions carry, and nothing is left over or eaten up. */
  lemma {:induction false} FramesReadBack(images: seq<seq<Byte>>, rest: seq<Byte>)
    requires Sendable(images)
    ensures ReceiveMany(Frames(images) + rest, |images|) == Some((Arrived(images), rest))
  {
    if images == [] {
      assert Frames(images) + rest == rest;
    } else {
      var tail := images[1..];
      assert Frames(images) + rest == Frame(images[0]) + (Frames(tail) + rest);
      FrameReadsBack(images[0], Frames(tail) + rest);
      FramesReadBack(tail, rest);
      assert Arrived(images) == [Padded(Frame(images[0]))] + Arrived(tail);
    }
  }

  // ------------------------------------------------------------ the fields a version lacks

  /** The record with the fields its version does not have set to zero. */
  function Blanked(image: seq<Byte>): seq<Byte>
    requires |image| == SIZE && Known(Ver(image))
  {
    if Ver(image) == 1 then image[..NAME] + Zeros(SIZE - NAME)
    else if Ver(image) == 2 then image[..MIME] + Zeros(SIZE - MIME)
    else image
  }

  /** The padding at the end of a version 2 record lies over the first three bytes of the
      mimetype.  The receiver sees the missing fields zeroed exactly if those are zero. */
  lemma MissingFieldsZeroExactly(image: seq<Byte>)
    requires |image| == SIZE && Known(Ver(image))
    ensures Padded(Frame(image)) == Blanked(image) <==>
            Ver(image) != 2 || (image[MIME] == 0 && image[MIME + 1] == 0 && image[MIME + 2] == 0)
  {
    var a, b := Padded(Frame(image)), Blanked(image);
    if Ver(image) == 2 {
      assert a[MIME] == image[MIME] && a[MIME + 1] == image[MIME + 1] && a[MIME + 2] == image[MIME + 2];
      assert b[MIME] == 0 && b[MIME + 1] == 0 && b[MIME + 2] == 0;
      if image[MIME] == 0 && image[MIME + 1] == 0 && image[MIME + 2] == 0 {
        forall i | 0 <= i < SIZE ensures a[i] == b[i] {
        }
      }
    } else {
      assert a == b;
    }
  }

  // ------------------------------------------------------------ records and their fields

  function CString(bytes: seq<Byte>): string {
    if bytes == [] || bytes[0] == 0 then "" else [bytes[0] as char] + CString(bytes[1..])
  }

  function CmdNumber(c: Cmd): int {
    match c
    case CmdIgnore => 0
    case CmdRender => 1
    case CmdDirty => 2
    case CmdDone => 3
    case CmdNotDone => 4
    case CmdRenderPrio => 5
    case CmdRenderBulk => 6
    case CmdRenderLow => 7
  }

  /** Numbers that name no command are treated like cmdIgnore: refused. */
  function CmdOf(n: int): Cmd {
    if n == 1 then CmdRender
    else if n == 2 then CmdDirty
    else if n == 3 then CmdDone
    else if n == 4 then CmdNotDone
    else if n == 5 then CmdRenderPrio
    else if n == 6 then CmdRenderBulk
    else if n == 7 then CmdRenderLow
    else CmdIgnore
  }

  function Unmarshal(image: seq<Byte>): Request
    requires |image| == SIZE
  {
    Request(FromLe32(image[0..4]), CmdOf(FromLe32(image[4..8])),
            FromLe32(image[8..12]), FromLe32(image[12..16]), FromLe32(image[16..20]),
            CString(image[NAME..MIME]), CString(image[MIME..OPTIONS]), CString(image[OPTIONS..PADDING]))
  }

  predicate IsInt(v: int) {
    -INT_MAX - 1 <= v <= INT_MAX
  }

  predicate FitsField(s: string) {
    |s| < XMLCONFIG_MAX && forall i :: 0 <= i < |s| ==> 0 < s[i] as int < 256
  }

  predicate Fits(r: Request) {
    && IsInt(r.ver) && IsInt(r.x) && IsInt(r.y) && IsInt(r.z)
    && FitsField(r.xmlname) && FitsField(r.mimetype) && FitsField(r.options)
  }

  function Field(s: string): (f: seq<Byte>)
    requires FitsField(s)
    ensures |f| == XMLCONFIG_MAX
  {
    seq(|s|, i requires 0 <= i < |s| => s[i] as int as Byte) + Zeros(XMLCONFIG_MAX - |s|)
  }

  function Ints(r: Request): (f: seq<Byte>)
    ensures |f| == V1_SIZE
  {
    Le32(r.ver) + Le32(CmdNumber(r.cmd)) + Le32(r.x) + Le32(r.y) + Le32(r.z)
  }

  function Marshal(r: Request): (image: seq<Byte>)
    requires Fits(r)
    ensures |image| == SIZE
  {
    Ints(r) + Field(r.xmlname) + Field(r.mimetype) + Field(r.options) + [0]
  }

  lemma {:induction false} CStringOf(bytes: seq<Byte>, s: string)
    requires FitsField(s) && |bytes| > |s| && bytes[|s|] == 0
    requires forall i :: 0 <= i < |s| ==> bytes[i] as char == s[i]
    ensures CString(bytes) == s
    decreases |s|
  {
    if s != "" {
      CStringOf(bytes[1..], s[1..]);
      assert s == [s[0]] + s[1..];
    }
  }

  lemma FieldReadsBack(s: string)
    requires FitsField(s)
    ensures CString(Field(s)) == s
  {
    CStringOf(Field(s), s);
  }

  lemma IntsReadBack(r: Request)
    requires Fits(r)
    ensures var f := Ints(r);
            && FromLe32(f[0..4]) == r.ver && FromLe32(f[4..8]) == CmdNumber(r.cmd)
            && FromLe32(f[8..12]) == r.x && FromLe32(f[12..16]) == r.y && FromLe32(f[16..20]) == r.z
  {
    hide Le32, FromLe32, FitsField;
    var f := Ints(r);
    IntRoundTrip(r.ver);
    IntRoundTrip(CmdNumber(r.cmd));
    IntRoundTrip(r.x);
    IntRoundTrip(r.y);
    IntRoundTrip(r.z);
    assert f[0..4] == Le32(r.ver) && f[4..8] == Le32(CmdNumber(r.cmd));
    assert f[8..12] == Le32(r.x) && f[12..16] == Le32(r.y) && f[16..20] == Le32(r.z);
  }

  lemma MarshalReadsBack(r: Request)
    requires Fits(r)
    ensures Unmarshal(Marshal(r)) == r && Ver(Marshal(r)) == r.ver
  {
    hide FromLe32, Field, FitsField, CString;
    var m, f := Marshal(r), Ints(r);
    IntsReadBack(r);
    assert m[0..4] == f[0..4] == m[..4] && m[4..8] == f[4..8] && m[8..12] == f[8..12];
    assert m[12..16] == f[12..16] && m[16..20] == f[16..20];
    assert m[NAME..MIME] == Field(r.xmlname) && m[MIME..OPTIONS] == Field(r.mimetype);
    assert m[OPTIONS..PADDING] == Field(r.options);
    FieldReadsBack(r.xmlname);
    FieldReadsBack(r.mimetype);
    FieldReadsBack(r.options);
  }

  /** The commands in the order of their numbers. */
  const COMMANDS := [CmdIgnore, CmdRender, CmdDirty, CmdDone, CmdNotDone, CmdRenderPrio, CmdRenderBulk, CmdRenderLow]

  /** Where the fields of a record are. */
  lemma RecordLayout(r: Request)
    requires Fits(r)
    ensures var m := Marshal(r);
            && m[..4] == Le32(r.ver) && m[8..12] == Le32(r.x) && m[12..16] == Le32(r.y) && m[16..20] == Le32(r.z)
            && m[4] < 8 && m[5] == m[6] == m[7] == 0 && COMMANDS[m[4]] == r.cmd
            && (forall i :: 0 <= i < 41 ==> m[20 + i] == if i < |r.xmlname| then r.xmlname[i] as int else 0)
            && (forall i :: 0 <= i < 41 ==> m[61 + i] == if i < |r.mimetype| then r.mimetype[i] as int else 0)
            && (forall i :: 0 <= i < 41 ==> m[102 + i] == if i < |r.options| then r.options[i] as int else 0)
  {
    hide Le32, Field, FitsField, CmdNumber;
    var m, f := Marshal(r), Ints(r);
    assert f[0..4] == Le32(r.ver) && f[4..8] == Le32(CmdNumber(r.cmd));
    assert f[8..12] == Le32(r.x) && f[12..16] == Le32(r.y) && f[16..20] == Le32(r.z);
    assert m[..4] == f[0..4] && m[8..12] == f[8..12] && m[12..16] == f[12..16] && m[16..20] == f[16..20];
    NumberOnTheWire(r.cmd);
    assert m[4] == f[4..8][0] && m[5] == f[4..8][1] && m[6] == f[4..8][2] && m[7] == f[4..8][3];
    FieldHolds(r.xmlname);
    FieldHolds(r.mimetype);
    FieldHolds(r.options);
  }

  lemma NumberOnTheWire(c: Cmd)
    ensures var b := Le32(CmdNumber(c)); b[0] < 8 && b[1] == b[2] == b[3] == 0 && COMMANDS[b[0]] == c
  {
  }

  lemma FieldHolds(s: string)
    requires FitsField(s)
    ensures forall i :: 0 <= i < 41 ==> Field(s)[i] == if i < |s| then s[i] as int else 0
  {
  }

  /** The leftovers in the padding do not matter to the daemon: once it has brought the request
      up to version 3, it is the request that was sent. */
  lemma UpgradeUndoesTheCut(image: seq<Byte>)
    requires |image| == SIZE && Known(Ver(image))
    ensures Upgrade(Unmarshal(Padded(Frame(image)))) == Upgrade(Unmarshal(image))
  {
    hide FromLe32, CString;
    var a := Padded(Frame(image));
    assert a[0..4] == image[0..4] == image[..4] && a[4..8] == image[4..8] && a[8..12] == image[8..12];
    assert a[12..16] == image[12..16] && a[16..20] == image[16..20];
    if Ver(image) >= 2 {
      assert a[NAME..MIME] == image[NAME..MIME];
    }
    if Ver(image) == 3 {
      assert a == image;
    }
  }

  /** Over the whole way: any request that fits its record reaches the daemon's queue as sent, also
      when the daemon does not wait, if it has arrived by then. */
  lemma RequestArrives(r: Request, rest: seq<Byte>, a: nat, b: nat)
    requires Fits(r) && Known(r.ver) && V1_SIZE <= a <= b && SizeOf(r.ver) <= b <= SizeOf(r.ver) + |rest|
    ensures Ver(Marshal(r)) == r.ver
    ensures var got := ReceiveWhen(Frame(Marshal(r)) + rest, a, b);
            got.ret > 0 && got.rest == rest && |got.image| == SIZE && Upgrade(Unmarshal(got.image)) == Upgrade(r)
  {
    hide Marshal, Unmarshal, Frame, Padded, Upgrade;
    MarshalReadsBack(r);
    var image := Marshal(r);
    var s := Frame(image) + rest;
    assert s[..4] == image[..4] by { FrameHead(image, rest); }
    FrameReadsBack(image, rest);
    UpgradeUndoesTheCut(image);
  }

  lemma FrameHead(image: seq<Byte>, rest: seq<Byte>)
    requires |image| == SIZE && Known(Ver(image))
    ensures (Frame(image) + rest)[..4] == image[..4]
  {
  }

  /** The version 2 requests of the Apache module, which fills in the mimetype, show it: the
      receiver finds an "ima" there. */
  lemma MimetypeLeaksIntoVersion2()
    ensures var r := Request(2, CmdRender, 0, 0, 0, "default", "image/png", "");
            && Fits(r) && Ver(Marshal(r)) == 2
            && Padded(Frame(Marshal(r))) != Blanked(Marshal(r))
  {
    hide FromLe32, Le32;
    var r := Request(2, CmdRender, 0, 0, 0, "default", "image/png", "");
    assert Fits(r) by {
      assert FitsField("default") && FitsField("image/png") && FitsField("");
    }
    MarshalReadsBack(r);
    assert Marshal(r)[MIME] == Field("image/png")[0] == 'i' as int;
    MissingFieldsZeroExactly(Marshal(r));
  }

  /** A version 3 request of which 64 bytes have arrived is accepted with most of its mimetype
      missing, and the next read starts in the middle of it. */
  lemma CutCommandIsAccepted()
    ensures var image := Marshal(Request(3, CmdRender, 0, 0, 0, "default", "image/png", ""));
            && Ver(image) == 3
            && var r := ReceiveWhen(Frame(image), V1_SIZE, V2_SIZE);
               && r.ret == V2_SIZE && r.rest == image[V2_SIZE..] && r.image != image
  {
    hide FromLe32, Le32;
    var req := Request(3, CmdRender, 0, 0, 0, "default", "image/png", "");
    assert Fits(req) by {
      assert FitsField("default") && FitsField("image/png") && FitsField("");
    }
    MarshalReadsBack(req);
    var image := Marshal(req);
    var r := ReceiveWhen(Frame(image), V1_SIZE, V2_SIZE);
    assert Frame(image) == image;
    assert image[MIME + 3] == Field("image/png")[3] == 'g' as int;
    assert r.image[MIME + 3] == 0;
  }

  // ------------------------------------------------------------ waiting for a reply

  /** The length of the reply at the head of the stream, as the Apache module sees it. */
  function ReplySize(s: seq<Byte>): nat {
    if |s| >= 4 && Ver(s) == 3 then SIZE else V2_SIZE
  }

  /** Does this reply say that the request is done? */
  predicate SaysDone(sent: Request, image: seq<Byte>)
    requires |image| == SIZE
  {
    var resp := Unmarshal(image);
    sent.x == resp.x && sent.y == resp.y && sent.z == resp.z && sent.xmlname == resp.xmlname && resp.cmd == CmdDone
  }

  /** The waiting part of request_tile.  However the bytes trickle in, it never takes one beyond
      the end of the reply, and if it gets that far it has the whole reply and nothing else; it
      says yes exactly if that reply does. */
  method AwaitReply(wire: Stream, sent: Request, resp: array<Byte>) returns (complete: bool, done: bool)
    requires resp.Length == SIZE
    modifies wire`bytes, resp
    ensures var s := old(wire.bytes); |s| - ReplySize(s) <= |wire.bytes| <= |s| && wire.bytes == s[|s| - |wire.bytes|..]
    ensures complete ==> var s := old(wire.bytes); var n := ReplySize(s);
              && |s| >= n && wire.bytes == s[n..]
              && resp[..] == Padded(s[..n]) && done == SaysDone(sent, resp[..])
    ensures !complete ==> !done && (wire.flaky || |old(wire.bytes)| < ReplySize(old(wire.bytes)))
  {
    hide Unmarshal, FromLe32, Padded;
    ghost var s := wire.bytes;
    var n, want := 0, V2_SIZE;
    Clear(resp);
    NothingYet(s);
    while true
      invariant 0 <= n < want && n <= |s| && want == ReplySize(s[..n])
      invariant wire.bytes == s[n..] && resp[..] == Padded(s[..n])
      decreases SIZE - n
    {
      ghost var before := resp[..];
      WantIsRight(s, n);
      var got := wire.RecvSome(resp, n, want - n);
      if got <= 0 {
        return false, false;
      }
      ReadOn(s, n, got, before, resp[..]);
      n := n + got;
      if n >= 4 {
        assert resp[..4] == s[..n][..4] by { Head(s[..n], resp[..]); }
        want := if FromLe32(resp[..4]) == 3 then SIZE else V2_SIZE;
      }
      WantIsRight(s, n);
      if n == want {
        var r := Unmarshal(resp[..]);
        done := sent.x == r.x && sent.y == r.y && sent.z == r.z && sent.xmlname == r.xmlname && r.cmd == CmdDone;
        return true, done;
      }
    }
  }

  lemma Head(bytes: seq<Byte>, image: seq<Byte>)
    requires 4 <= |bytes| <= SIZE && image == Padded(bytes)
    ensures image[..4] == bytes[..4]
  {
  }

  /** What is known after `n` bytes never asks for more than the reply has. */
  lemma WantIsRight(s: seq<Byte>, n: nat)
    requires n <= |s|
    ensures ReplySize(s[..n]) <= ReplySize(s)
    ensures n >= 4 ==> ReplySize(s[..n]) == ReplySize(s)
  {
    if n >= 4 {
      assert s[..n][..4] == s[..4];
    }
  }

  /** The daemon's reply to a request of version 2 or 3, as the module that sent it reads it:
      its length is what the module expects, and it says yes exactly if the daemon did. */
  lemma ReplyIsUnderstood(sent: Request, answer: Cmd, rest: seq<Byte>)
    requires Fits(sent) && 2 <= sent.ver <= 3
    ensures var reply := Upgrade(sent).(cmd := answer);
            && Fits(reply) && Ver(Marshal(reply)) == sent.ver
            && var s := Frame(Marshal(reply)) + rest;
               && ReplySize(s) == |Frame(Marshal(reply))| && s[ReplySize(s)..] == rest
               && (SaysDone(sent, Padded(s[..ReplySize(s)])) <==> answer == CmdDone)
  {
    hide Marshal, Unmarshal, Padded, FromLe32;
    var reply := Upgrade(sent).(cmd := answer);
    MarshalReadsBack(reply);
    var image := Marshal(reply);
    var s := Frame(image) + rest;
    assert s[..4] == image[..4];
    assert s[..|Frame(image)|] == Frame(image) && s[|Frame(image)|..] == rest;
    KeepsTheAnswer(image);
  }

  /** Any reply whatever is taken for a yes exactly if it says Done and is for the tile and map that
      were asked for. */
  lemma SaysDoneExactly(sent: Request, reply: Request)
    requires Fits(reply) && 2 <= reply.ver <= 3
    ensures Ver(Marshal(reply)) == reply.ver
    ensures SaysDone(sent, Padded(Frame(Marshal(reply)))) <==>
            && reply.cmd == CmdDone
            && (reply.x, reply.y, reply.z, reply.xmlname) == (sent.x, sent.y, sent.z, sent.xmlname)
  {
    hide Marshal, Unmarshal, Padded, FromLe32;
    MarshalReadsBack(reply);
    KeepsTheAnswer(Marshal(reply));
  }

  lemma KeepsTheAnswer(image: seq<Byte>)
    requires |image| == SIZE && 2 <= Ver(image) <= 3
    ensures var a, b := Unmarshal(Padded(Frame(image))), Unmarshal(image);
            a.x == b.x && a.y == b.y && a.z == b.z && a.xmlname == b.xmlname && a.cmd == b.cmd
  {
    hide FromLe32, CString;
    var a := Padded(Frame(image));
    assert a[4..8] == image[4..8] && a[8..12] == image[8..12];
    assert a[12..16] == image[12..16] && a[16..20] == image[16..20];
    assert a[NAME..MIME] == image[NAME..MIME];
  }
}

/** The transfer loops and msg_read / msg_write themselves, over a descriptor object and in-place buffers. */
module TunnelIo {
  import opened Bytes
  import opened TunnelCodec
  import opened TunnelSchedule
  import TunnelProperties

  /** A connected descriptor: bytes still to arrive, bytes already sent, and the kernel's replies to come. */
  class Descriptor {
    var input: seq<Byte>
    var wire: seq<Byte>
    var sched: Schedule

    constructor (input: seq<Byte>, sched: Schedule)
      ensures this.input == input && this.wire == [] && this.sched == sched
    {
      this.input, this.wire, this.sched := input, [], sched;
    }

    ghost function Src(): Source
      reads this
    {
      Source(input, sched)
    }

    /** read(2): -1, 0 at the end of the stream, or the number of bytes stored from buffer[at] on. */
    method Read(buffer: array<Byte>, at: nat, len: nat) returns (st: int)
      requires 0 < len && at + len <= buffer.Length
      modifies this`input, this`sched, buffer
      ensures sched == Later(old(sched))
      ensures st == Moves(old(sched), |old(input)|, len)
      ensures var n := if st > 0 then st else 0;
              && n <= |old(input)| && n <= len && input == old(input)[n..]
              && (forall i :: at <= i < at + n ==> buffer[i] == old(input)[i - at])
              && (forall i :: 0 <= i < buffer.Length && !(at <= i < at + n) ==> buffer[i] == old(buffer[i]))
    {
      st := Moves(sched, |input|, len);
      sched := Later(sched);
      if st <= 0 {
        return;
      }
      forall i | 0 <= i < st {
        buffer[at + i] := input[i];
      }
      input := input[st..];
    }

    /** write(2) of data[at..]. */
    method Write(data: array<Byte>, at: nat, len: nat) returns (st: int)
      requires 0 < len && at + len <= data.Length
      modifies this`wire, this`sched
      ensures sched == Later(old(sched))
      ensures st == Moves(old(sched), len, len)
      ensures var n := if st > 0 then st else 0;
              n <= len && wire == old(wire) + data[at..at + n]
    {
      st := Moves(sched, len, len);
      sched := Later(sched);
      if st <= 0 {
        return;
      }
      wire := wire + data[at..at + st];
    }
  }

  /** A loop that has moved n bytes and will end like rest ends like whole. */
  ghost predicate Continues(whole: Driven, n: nat, rest: Driven) {
    whole == Driven(rest.ok, n + rest.n, rest.sched)
  }

  /** guard_read: fills buffer[..size] or fails, leaving what did arrive in the buffer. */
  method GuardRead(fd: Descriptor, buffer: array<Byte>, size: nat) returns (st: int)
    requires size <= buffer.Length
    modifies fd`input, fd`sched, buffer
    ensures var d := Drive(old(fd.sched), |old(fd.input)|, size);
            && st == (if d.ok then size else -1)
            && fd.sched == d.sched && fd.input == old(fd.input)[d.n..]
            && (forall i :: 0 <= i < d.n ==> buffer[i] == old(fd.input)[i])
            && (forall i :: d.n <= i < buffer.Length ==> buffer[i] == old(buffer[i]))
  {
    hide Drive;
    var n := 0;
    ghost var input := fd.input;
    ghost var whole := Drive(fd.sched, |input|, size);
    while n != size
      invariant 0 <= n <= size && n <= |input|
      invariant fd.input == input[n..]
      invariant forall i :: 0 <= i < n ==> buffer[i] == input[i]
      invariant forall i :: n <= i < buffer.Length ==> buffer[i] == old(buffer[i])
      invariant Continues(whole, n, Drive(fd.sched, |input| - n, size - n))
      decreases size - n
    {
      DriveTurn(fd.sched, |input| - n, size - n);
      var moved := fd.Read(buffer, n, size - n);
      if moved == -1 || moved == 0 {
        return -1;
      }
      n := n + moved;
    }
    DriveTurn(fd.sched, |fd.input|, 0);
    return n;
  }

  /** guard_read, its effect put together as Pull. */
  method Fill(fd: Descriptor, buffer: array<Byte>, size: nat) returns (st: int)
    requires size <= buffer.Length
    modifies fd`input, fd`sched, buffer
    ensures var p := Pull(old(fd.Src()), size);
            && st == (if p.ok then size else -1)
            && fd.Src() == p.src
            && buffer[..] == p.bytes + old(buffer[..])[|p.bytes|..]
            && (p.ok && size == buffer.Length ==> buffer[..] == p.bytes)
  {
    ghost var d := Drive(fd.sched, |fd.input|, size);
    st := GuardRead(fd, buffer, size);
    FilledPrefix(buffer[..], old(fd.input)[..d.n], old(buffer[..]));
  }

  lemma FilledPrefix(now: seq<Byte>, head: seq<Byte>, before: seq<Byte>)
    requires |head| <= |now| == |before|
    requires forall i :: 0 <= i < |head| ==> now[i] == head[i]
    requires forall i :: |head| <= i < |now| ==> now[i] == before[i]
    ensures now == head + before[|head|..]
  {
  }

  /** guard_write: puts data[..size] on the wire, or fails after a strict prefix of it. */
  method GuardWrite(fd: Descriptor, data: array<Byte>, size: nat) returns (st: int)
    requires size <= data.Length
    modifies fd`wire, fd`sched
    ensures var d := Drive(old(fd.sched), size, size);
            && st == (if d.ok then size else -1)
            && fd.sched == d.sched
            && fd.wire == old(fd.wire) + data[..d.n]
  {
    hide Drive;
    var n := 0;
    ghost var whole := Drive(fd.sched, size, size);
    while n != size
      invariant 0 <= n <= size
      invariant fd.wire == old(fd.wire) + data[..n]
      invariant Continues(whole, n, Drive(fd.sched, size - n, size - n))
      decreases size - n
    {
      DriveTurn(fd.sched, size - n, size - n);
      var moved := fd.Write(data, n, size - n);
      if moved == -1 || moved == 0 {
        return -1;
      }
      assert data[..n] + data[n..n + moved] == data[..n + moved];
      n := n + moved;
    }
    DriveTurn(fd.sched, 0, 0);
    return n;
  }

  /** msg_check_number. */
  method CheckNumber(fd: Descriptor, number: U16) returns (st: int)
    modifies fd`input, fd`sched
    ensures var p := Pull(old(fd.Src()), 2);
            && st == (if p.ok && GetU16(p.bytes) == number then 0 else -1)
            && fd.Src() == p.src
  {
    var value := new Byte[2];
    var got := Fill(fd, value, 2);
    if got == -1 {
      return -1;
    }
    if number != GetU16(value[..]) {
      return -1;
    }
    return 0;
  }

  /**
   tunnel_msg_t as msg_read fills it. `size` is the raw memory of header.size; the host is taken to be
   big-endian, so that ntohl leaves that memory as it is.
  */
  class TunnelMsg {
    var kind: Byte
    var channel: U16
    var client: U16
    const size: array<Byte>
    var data: seq<Byte>

    constructor ()
      ensures size.Length == 4 && fresh(size)
    {
      kind, channel, client, data := 0, 0, 0, [];
      size := new Byte[4];
    }
  }

  /** What msg_read_payload leaves behind: the size field, and the payload if there is one. */
  method ReadPayload(fd: Descriptor, size: array<Byte>, limit: Limit) returns (data: seq<Byte>)
    requires size.Length == 4
    modifies fd`input, fd`sched, size
    ensures var p := ReceivePayload(old(fd.Src()), old(size[..]), limit);
            data == p.data && size[..] == p.size && fd.Src() == p.src
  {
    hide GetU32, Pull;
    var got := Fill(fd, size, 4);
    if got == -1 {
      return [];
    }
    var n := GetU32(size[..]);
    if n == 0 {
      return [];
    }
    if n > limit {
      return [];  // malloc returned NULL
    }
    var block := new Byte[n];
    got := Fill(fd, block, n);
    if got == -1 {
      return [];
    }
    return block[..];
  }

  /** msg_read down to the client id. */
  method ReadHeader(fd: Descriptor, msg: TunnelMsg) returns (st: int)
    modifies fd`input, fd`sched, msg
    ensures var h := Header(old(fd.Src()));
            && fd.Src() == h.src
            && st == (if h.ok then 0 else -1)
            && (h.ok ==> msg.kind == h.kind && msg.channel == h.channel && msg.client == h.client)
  {
    hide Pull;
    var got := CheckNumber(fd, MSG_MAGIC_BEGIN);
    if got == -1 {
      return -1;
    }
    var one, two := new Byte[1], new Byte[2];
    got := Fill(fd, one, 1);
    if got == -1 {
      return -1;
    }
    msg.kind := one[0];
    if msg.kind > 0x7 {
      return -1;
    }
    got := Fill(fd, two, 2);
    if got == -1 {
      return -1;
    }
    msg.channel := GetU16(two[..]);
    got := Fill(fd, two, 2);
    if got == -1 {
      return -1;
    }
    msg.client := GetU16(two[..]);
    return 0;
  }

  /** msg_read: the stream, the schedule and the message end up as Receive says. */
  method MsgRead(fd: Descriptor, msg: TunnelMsg, limit: Limit) returns (st: int)
    requires msg.size.Length == 4
    modifies fd`input, fd`sched, msg, msg.size
    ensures var r := Receive(old(fd.Src()), old(msg.size[..]), limit);
            && fd.Src() == r.src
            && st == (if r.Received? then 0 else -1)
            && msg.size[..] == SizeAfter(old(fd.Src()), old(msg.size[..]), limit)
            && (r.Received? ==>
                  && msg.kind == r.msg.kind && msg.channel == r.msg.channel && msg.client == r.msg.client
                  && msg.data == r.msg.data)
  {
    hide Header, ReceivePayload, Pull;
    var got := ReadHeader(fd, msg);
    if got == -1 {
      return -1;
    }
    msg.data := ReadPayload(fd, msg.size, limit);
    if msg.data == [] && msg.size[..] != [0, 0, 0, 0] {
      return -1;
    }
    st := CheckNumber(fd, MSG_MAGIC_END);
  }

  /** With `pieces` still to be written, msg_write ends like `end`, counted from the wire contents `start`. */
  ghost predicate Ends(fd: Descriptor, pieces: Pieces, start: seq<Byte>, end: Pushed)
    reads fd
  {
    var rest := PushEach(fd.sched, pieces);
    end.ok == rest.ok && end.sched == rest.sched && start + end.wire == fd.wire + rest.wire
  }

  /** One step of msg_write: convert a field to network order and guard_write it. */
  method WritePiece(fd: Descriptor, bytes: seq<Byte>, ghost pieces: Pieces, ghost start: seq<Byte>, ghost end: Pushed)
    returns (st: int, ghost more: Pieces)
    requires pieces.Piece? && pieces.bytes == bytes && Ends(fd, pieces, start, end)
    modifies fd`wire, fd`sched
    ensures st != -1 ==> more == pieces.more && Ends(fd, more, start, end)
    ensures st == -1 ==> !end.ok && fd.sched == end.sched && fd.wire == start + end.wire
  {
    var buffer := new Byte[|bytes|](i requires 0 <= i < |bytes| => bytes[i]);
    assert buffer[..|bytes|] == bytes;
    more := pieces.more;
    ghost var wire := fd.wire;
    st := GuardWrite(fd, buffer, |bytes|);
    if st != -1 {
      ghost var q := PushEach(fd.sched, more);
      assert wire + (bytes + q.wire) == fd.wire + q.wire;
    }
  }

  /** msg_write: succeeds exactly when the whole frame is on the wire; a failure leaves a strict prefix of it. */
  method MsgWrite(fd: Descriptor, m: Message) returns (st: int)
    modifies fd`wire, fd`sched
    ensures var p := Send(old(fd.sched), m);
            && st == (if p.ok then 0 else -1)
            && fd.sched == p.sched
            && fd.wire == old(fd.wire) + p.wire
            && (st == 0 ==> fd.wire == old(fd.wire) + Encode(m))
            && (st == -1 ==> p.wire < Encode(m))
  {
    ghost var start, end, pieces := fd.wire, Send(fd.sched, m), FramePieces(m);
    TunnelProperties.SendIsEncode(fd.sched, m);
    st, pieces := WritePiece(fd, PutU16(MSG_MAGIC_BEGIN), pieces, start, end);
    if st == -1 {
      return;
    }
    st, pieces := WritePiece(fd, [m.kind], pieces, start, end);
    if st == -1 {
      return;
    }
    st, pieces := WritePiece(fd, PutU16(m.channel), pieces, start, end);
    if st == -1 {
      return;
    }
    st, pieces := WritePiece(fd, PutU16(m.client), pieces, start, end);
    if st == -1 {
      return;
    }
    st, pieces := WritePiece(fd, PutU32(|m.data|), pieces, start, end);
    if st == -1 {
      return;
    }
    if |m.data| > 0 {
      st, pieces := WritePiece(fd, m.data, pieces, start, end);
      if st == -1 {
        return;
      }
    }
    st, pieces := WritePiece(fd, PutU16(MSG_MAGIC_END), pieces, start, end);
    if st == -1 {
      return;
    }
    return 0;
  }
}

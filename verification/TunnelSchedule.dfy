/**
 A descriptor under an adversarial transfer schedule, and what the transfer loops, msg_read and msg_write
 come to on it, as functions. Module TunnelIo proves the loops equal to these functions.
*/
module TunnelSchedule {
  import opened Bytes
  import opened TunnelCodec

  /** How the kernel answers one read or write: -1, 0, or a transfer of up to k bytes (at least one). */
  datatype Reply = Error | Zero | Upto(k: nat)

  /** The replies still to come; once they run out every call transfers all it can. */
  type Schedule = seq<Reply>

  function Next(sched: Schedule): Reply {
    if sched == [] then Upto(0x8000_0000) else sched[0]
  }

  function Later(sched: Schedule): Schedule {
    if sched == [] then [] else sched[1..]
  }

  ghost predicate Faultless(sched: Schedule) {
    forall i :: 0 <= i < |sched| ==> sched[i].Upto?
  }

  /** What read or write returns when asked for `size` bytes while `avail` can be moved. */
  function Moves(sched: Schedule, avail: nat, size: nat): (st: int)
    requires 0 < size
    ensures -1 <= st <= size && st <= avail
  {
    match Next(sched)
    case Error => -1
    case Zero => 0
    case Upto(k) =>
      var most := if size < avail then size else avail;
      if most == 0 || most <= k then most else if k == 0 then 1 else k
  }

  /** Every answer that read and write may give is the next one of some schedule, and no other answer is. */
  lemma AnyAnswer(st: int, avail: nat, size: nat, later: Schedule)
    requires size > 0
    ensures (exists sched :: Later(sched) == later && Moves(sched, avail, size) == st)
            <==> -1 <= st <= size && st <= avail
  {
    if -1 <= st <= size && st <= avail {
      var reply := if st == -1 then Error else if st == 0 then Zero else Upto(st);
      assert Later([reply] + later) == later && Moves([reply] + later, avail, size) == st;
    }
  }

  // ----- The two transfer loops

  /** How a loop ends: whether it moved everything, how many bytes it moved, and what is left of the schedule. */
  datatype Driven = Driven(ok: bool, n: nat, sched: Schedule)

  /** guard_read and guard_write: move `size` bytes when only `avail` of them will ever come. */
  function Drive(sched: Schedule, avail: nat, size: nat): (d: Driven)
    ensures d.n <= size && d.n <= avail
    ensures d.ok <==> d.n == size
    decreases size
  {
    if size == 0 then Driven(true, 0, sched)
    else
      var st := Moves(sched, avail, size);
      if st <= 0 then Driven(false, 0, Later(sched))
      else
        var d := Drive(Later(sched), avail - st, size - st);
        d.(n := st + d.n)
  }

  /** Without faults a loop moves everything there is to move. */
  lemma {:induction false} DriveFaultless(sched: Schedule, avail: nat, size: nat)
    requires Faultless(sched)
    ensures var d := Drive(sched, avail, size);
            Faultless(d.sched) && d.n == if size <= avail then size else avail
    decreases size
  {
    if size != 0 && avail != 0 {
      assert Next(sched).Upto?;
      var st := Moves(sched, avail, size);
      DriveFaultless(Later(sched), avail - st, size - st);
    }
  }

  /** One turn of a loop, and its end. */
  lemma DriveTurn(sched: Schedule, avail: nat, size: nat)
    ensures size == 0 ==> Drive(sched, avail, size) == Driven(true, 0, sched)
    ensures size > 0 ==>
              var d := Drive(sched, avail, size);
              var st := Moves(sched, avail, size);
              if st <= 0 then d == Driven(false, 0, Later(sched))
              else
                var rest := Drive(Later(sched), avail - st, size - st);
                d == Driven(rest.ok, st + rest.n, rest.sched)
  {
  }

  // ----- Reading

  /** The readable side: the bytes that will arrive before the end of the stream, and the schedule. */
  datatype Source = Source(input: seq<Byte>, sched: Schedule)

  datatype Pulled = Pulled(ok: bool, bytes: seq<Byte>, src: Source)

  /** guard_read: bytes is what reached the buffer, also when the read failed half-way. */
  function Pull(src: Source, size: nat): (p: Pulled)
    ensures p.ok ==> |p.bytes| == size
    ensures !p.ok ==> |p.bytes| < size
  {
    var d := Drive(src.sched, |src.input|, size);
    Pulled(d.ok, src.input[..d.n], Source(src.input[d.n..], d.sched))
  }

  /** The raw memory of the header's 32-bit size field, in address order. */
  type Memory = m: seq<Byte> | |m| == 4 witness [0, 0, 0, 0]

  /** The largest block malloc grants; it never grants 2^31 bytes or more. */
  type Limit = n: nat | n < 0x8000_0000

  datatype ReadResult = Rejected(src: Source) | Received(msg: Message, src: Source)

  /** msg_check_number on the end magic. */
  function Finish(src: Source, m: Message): (r: ReadResult) {
    var e := Pull(src, 2);
    if !e.ok || GetU16(e.bytes) != MSG_MAGIC_END then Rejected(e.src) else Received(m, e.src)
  }

  datatype HeaderResult = HeaderResult(ok: bool, kind: Byte, channel: U16, client: U16, src: Source)

  /** msg_read down to the client id. */
  function Header(src: Source): (h: HeaderResult)
    ensures h.ok ==> h.kind <= 0x7
  {
    var b := Pull(src, 2);
    if !b.ok || GetU16(b.bytes) != MSG_MAGIC_BEGIN then HeaderResult(false, 0, 0, 0, b.src) else
    var k := Pull(b.src, 1);
    if !k.ok || k.bytes[0] > 0x7 then HeaderResult(false, 0, 0, 0, k.src) else
    var ch := Pull(k.src, 2);
    if !ch.ok then HeaderResult(false, 0, 0, 0, ch.src) else
    var cl := Pull(ch.src, 2);
    if !cl.ok then HeaderResult(false, 0, 0, 0, cl.src) else
    HeaderResult(true, k.bytes[0], GetU16(ch.bytes), GetU16(cl.bytes), cl.src)
  }

  /**
   msg_read. `stale` is what the size field of the caller's header held before the call: a failed read of the
   field leaves its tail in place, and msg_read then tells failure from an empty payload by that memory.
  */
  function Receive(src: Source, stale: Memory, limit: Limit): (r: ReadResult) {
    var h := Header(src);
    if !h.ok then Rejected(h.src) else Body(h.src, stale, limit, h.kind, h.channel, h.client)
  }

  /** msg_read_payload: the payload (none stands for NULL) and what the size field then holds. */
  datatype Payloaded = Payloaded(data: seq<Byte>, size: Memory, src: Source)

  function ReceivePayload(src: Source, stale: Memory, limit: Limit): (p: Payloaded)
    ensures p.data == [] || (|p.data| <= limit && GetU32(p.size) == |p.data|)
  {
    var sz := Pull(src, 4);
    if !sz.ok then Payloaded([], sz.bytes + stale[|sz.bytes|..], sz.src)
    else
      var n := GetU32(sz.bytes);
      if n == 0 || n > limit then Payloaded([], sz.bytes, sz.src)
      else
        var d := Pull(sz.src, n);
        Payloaded(if d.ok then d.bytes else [], sz.bytes, d.src)
  }

  /** msg_read from the size field on. */
  function Body(src: Source, stale: Memory, limit: Limit, kind: Byte, channel: U16, client: U16): (r: ReadResult) {
    var p := ReceivePayload(src, stale, limit);
    if p.data == [] && p.size != [0, 0, 0, 0] then Rejected(p.src)
    else Finish(p.src, Message(kind, channel, client, p.data))
  }

  /** What msg_read leaves in the memory of the size field, whether it accepts the message or not. */
  function SizeAfter(src: Source, stale: Memory, limit: Limit): (m: Memory)
    ensures Receive(src, stale, limit).Received? ==> GetU32(m) == |Receive(src, stale, limit).msg.data|
  {
    var h := Header(src);
    if h.ok then ReceivePayload(h.src, stale, limit).size else stale
  }

  // ----- Writing

  datatype Pushed = Pushed(ok: bool, wire: seq<Byte>, sched: Schedule)

  /** guard_write: wire is what went out, also when the write failed half-way. */
  function Push(sched: Schedule, data: seq<Byte>): (p: Pushed)
    ensures p.ok <==> p.wire == data
  {
    var d := Drive(sched, |data|, |data|);
    Pushed(d.ok, data[..d.n], d.sched)
  }

  /** Consecutive guard_writes, stopping at the first that fails. */
  function PushEach(sched: Schedule, pieces: Pieces): (p: Pushed)
    decreases pieces
  {
    match pieces
    case Done => Pushed(true, [], sched)
    case Piece(bytes, more) =>
      var p := Push(sched, bytes);
      if !p.ok then p
      else
        var q := PushEach(p.sched, more);
        Pushed(q.ok, p.wire + q.wire, q.sched)
  }

  /** msg_write. */
  function Send(sched: Schedule, m: Message): Pushed {
    PushEach(sched, FramePieces(m))
  }
}

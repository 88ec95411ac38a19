/** What msg_read and msg_write promise each other, under every schedule. */
module TunnelProperties {
  import opened Bytes
  import opened TunnelCodec
  import opened TunnelSchedule

  // ----- msg_write

  function Concat(pieces: Pieces): seq<Byte> {
    match pieces
    case Done => []
    case Piece(bytes, more) => bytes + Concat(more)
  }

  lemma {:induction false} PushEachIsPrefix(sched: Schedule, pieces: Pieces)
    ensures var p := PushEach(sched, pieces);
            && p.wire <= Concat(pieces)
            && (p.ok <==> p.wire == Concat(pieces))
            && (Faultless(sched) ==> p.ok && Faultless(p.sched))
    decreases pieces
  {
    match pieces
    case Done =>
    case Piece(bytes, more) =>
      var p := Push(sched, bytes);
      if Faultless(sched) {
        DriveFaultless(sched, |bytes|, |bytes|);
      }
      if p.ok {
        PushEachIsPrefix(p.sched, more);
      }
  }

  lemma FramePiecesConcat(m: Message)
    ensures Concat(FramePieces(m)) == Encode(m)
  {
    var end := Trailer();
    assert Concat(end) == PutU16(MSG_MAGIC_END) + Concat(Done);
    var f5 := if |m.data| > 0 then Piece(m.data, end) else end;
    assert Concat(f5) == m.data + PutU16(MSG_MAGIC_END);
    var f4 := Piece(PutU32(|m.data|), f5);
    var f3 := Piece(PutU16(m.client), f4);
    var f2 := Piece(PutU16(m.channel), f3);
    var f1 := Piece([m.kind], f2);
    assert Concat(f4) == PutU32(|m.data|) + Concat(f5);
    assert Concat(f3) == PutU16(m.client) + Concat(f4);
    assert Concat(f2) == PutU16(m.channel) + Concat(f3);
    assert Concat(f1) == [m.kind] + Concat(f2);
  }

  /** msg_write succeeds exactly when the whole frame is out; otherwise a strict prefix of it is. */
  lemma SendIsEncode(sched: Schedule, m: Message)
    ensures var p := Send(sched, m);
            && p.wire <= Encode(m)
            && (p.ok <==> p.wire == Encode(m))
            && (!p.ok ==> |p.wire| < |Encode(m)|)
            && (Faultless(sched) ==> p.ok && Faultless(p.sched))
  {
    FramePiecesConcat(m);
    PushEachIsPrefix(sched, FramePieces(m));
  }

  // ----- msg_read accepts every frame

  lemma Assemble(m: Message, rest: seq<Byte>)
    ensures PutU16(MSG_MAGIC_BEGIN) + ([m.kind] + (PutU16(m.channel) + (PutU16(m.client)
              + (PutU32(|m.data|) + (m.data + (PutU16(MSG_MAGIC_END) + rest)))))) == Encode(m) + rest
  {
  }

  lemma PullExactly(src: Source, head: seq<Byte>, rest: seq<Byte>)
    requires Faultless(src.sched)
    requires src.input == head + rest
    ensures var p := Pull(src, |head|);
            p.ok && p.bytes == head && p.src.input == rest && Faultless(p.src.sched)
  {
    DriveFaultless(src.sched, |src.input|, |head|);
    var p := Pull(src, |head|);
    assert src.input[..|head|] == head && src.input[|head|..] == rest;
    assert src.input[..|head|] == p.bytes && src.input[|head|..] == p.src.input;
  }

  lemma FinishComplete(src: Source, m: Message, rest: seq<Byte>)
    requires Faultless(src.sched)
    requires src.input == PutU16(MSG_MAGIC_END) + rest
    ensures var r := Finish(src, m);
            r.Received? && r.msg == m && r.src.input == rest && Faultless(r.src.sched)
  {
    PullExactly(src, PutU16(MSG_MAGIC_END), rest);
    U16RoundTrip(MSG_MAGIC_END, [0, 0]);
  }

  lemma BodyComplete(src: Source, stale: Memory, limit: Limit, m: Message, rest: seq<Byte>)
    requires Faultless(src.sched)
    requires |m.data| <= limit
    requires src.input == PutU32(|m.data|) + (m.data + (PutU16(MSG_MAGIC_END) + rest))
    ensures var r := Body(src, stale, limit, m.kind, m.channel, m.client);
            r.Received? && r.msg == m && r.src.input == rest && Faultless(r.src.sched)
  {
    var end := PutU16(MSG_MAGIC_END) + rest;
    PullExactly(src, PutU32(|m.data|), m.data + end);
    U32RoundTrip(|m.data|, [0, 0, 0, 0]);
    var sz := Pull(src, 4);
    if m.data == [] {
      assert m.data + end == end;
      FinishComplete(sz.src, m, rest);
    } else {
      PullExactly(sz.src, m.data, end);
      FinishComplete(Pull(sz.src, |m.data|).src, m, rest);
    }
  }

  lemma HeaderComplete(src: Source, m: Message, rest: seq<Byte>)
    requires Faultless(src.sched)
    requires m.kind <= 0x7
    requires src.input == PutU16(MSG_MAGIC_BEGIN) + ([m.kind] + (PutU16(m.channel) + (PutU16(m.client) + rest)))
    ensures var h := Header(src);
            && h.ok && h.kind == m.kind && h.channel == m.channel && h.client == m.client
            && h.src.input == rest && Faultless(h.src.sched)
  {
    var r3 := PutU16(m.client) + rest;
    var r2 := PutU16(m.channel) + r3;
    PullExactly(src, PutU16(MSG_MAGIC_BEGIN), [m.kind] + r2);
    var b := Pull(src, 2);
    PullExactly(b.src, [m.kind], r2);
    var k := Pull(b.src, 1);
    PullExactly(k.src, PutU16(m.channel), r3);
    var ch := Pull(k.src, 2);
    PullExactly(ch.src, PutU16(m.client), rest);
    U16RoundTrip(MSG_MAGIC_BEGIN, [0, 0]);
    U16RoundTrip(m.channel, [0, 0]);
    U16RoundTrip(m.client, [0, 0]);
  }

  /** However the stream is split, msg_read returns the message at its head and stops right behind it. */
  lemma ReceiveComplete(src: Source, stale: Memory, limit: Limit, m: Message, rest: seq<Byte>)
    requires Faultless(src.sched)
    requires m.kind <= 0x7 && |m.data| <= limit
    requires src.input == Encode(m) + rest
    ensures var r := Receive(src, stale, limit);
            r.Received? && r.msg == m && r.src.input == rest && Faultless(r.src.sched)
  {
    Assemble(m, rest);
    HeaderComplete(src, m, PutU32(|m.data|) + (m.data + (PutU16(MSG_MAGIC_END) + rest)));
    BodyComplete(Header(src).src, stale, limit, m, rest);
  }

  // ----- msg_read accepts nothing but frames, unless a failed size field passes for an empty payload

  /** The read of the size field failed, and the field's memory nevertheless reads as zero. */
  ghost predicate SizeSlip(src: Source, stale: Memory) {
    var sz := Pull(src, 4);
    !sz.ok && sz.bytes + stale[|sz.bytes|..] == [0, 0, 0, 0]
  }

  lemma FinishSound(src: Source, m: Message)
    ensures var r := Finish(src, m);
            r.Received? ==> r.msg == m && src.input == PutU16(MSG_MAGIC_END) + r.src.input
  {
    var e := Pull(src, 2);
    if e.ok {
      U16RoundTrip(0, e.bytes);
    }
  }

  lemma BodySound(src: Source, stale: Memory, limit: Limit, kind: Byte, channel: U16, client: U16)
    requires !SizeSlip(src, stale)
    ensures var r := Body(src, stale, limit, kind, channel, client);
            r.Received? ==>
              && r.msg.kind == kind && r.msg.channel == channel && r.msg.client == client
              && src.input == PutU32(|r.msg.data|) + (r.msg.data + (PutU16(MSG_MAGIC_END) + r.src.input))
  {
    PullSplits(src, 4);
    var sz := Pull(src, 4);
    var r := Body(src, stale, limit, kind, channel, client);
    if sz.ok && r.Received? {
      U32RoundTrip(0, sz.bytes);
      var n := GetU32(sz.bytes);
      PullSplits(sz.src, n);
      var d := Pull(sz.src, n);
      FinishSound(d.src, Message(kind, channel, client, d.bytes));
      assert sz.src.input == r.msg.data + (PutU16(MSG_MAGIC_END) + r.src.input);
    }
  }

  /** What msg_read consumed is the msg_write encoding of what it returned. */
  ghost predicate Canonical(src: Source, stale: Memory, limit: Limit) {
    var r := Receive(src, stale, limit);
    r.Received? ==> r.msg.kind <= 0x7 && src.input == Encode(r.msg) + r.src.input
  }

  lemma PullSplits(src: Source, size: nat)
    ensures var p := Pull(src, size); src.input == p.bytes + p.src.input
  {
  }

  lemma HeaderSound(src: Source)
    ensures var h := Header(src);
            h.ok ==> src.input == PutU16(MSG_MAGIC_BEGIN)
                                  + ([h.kind] + (PutU16(h.channel) + (PutU16(h.client) + h.src.input)))
  {
    var b := Pull(src, 2);
    var k := Pull(b.src, 1);
    var ch := Pull(k.src, 2);
    var cl := Pull(ch.src, 2);
    if Header(src).ok {
      PullSplits(src, 2);
      PullSplits(b.src, 1);
      PullSplits(k.src, 2);
      PullSplits(ch.src, 2);
      U16RoundTrip(0, b.bytes);
      U16RoundTrip(0, ch.bytes);
      U16RoundTrip(0, cl.bytes);
      assert k.bytes == [Header(src).kind];
    }
  }

  lemma CanonicalWithoutSlip(src: Source, stale: Memory, limit: Limit)
    requires !SizeSlip(Header(src).src, stale)
    ensures Canonical(src, stale, limit)
  {
    var r := Receive(src, stale, limit);
    if r.Received? {
      var h := Header(src);
      HeaderSound(src);
      BodySound(h.src, stale, limit, h.kind, h.channel, h.client);
      Assemble(r.msg, r.src.input);
    }
  }

  lemma HeaderFaultless(src: Source)
    requires Faultless(src.sched)
    ensures Faultless(Header(src).src.sched)
  {
    var b := Pull(src, 2);
    var k := Pull(b.src, 1);
    var ch := Pull(k.src, 2);
    DriveFaultless(src.sched, |src.input|, 2);
    DriveFaultless(b.src.sched, |b.src.input|, 1);
    DriveFaultless(k.src.sched, |k.src.input|, 2);
    DriveFaultless(ch.src.sched, |ch.src.input|, 2);
  }

  /** Without a read error msg_read accepts frames only, whatever the header held before. */
  lemma FaultlessIsCanonical(src: Source, stale: Memory, limit: Limit)
    requires Faultless(src.sched)
    ensures Canonical(src, stale, limit)
  {
    var r := Receive(src, stale, limit);
    var at := Header(src).src;
    // if the stream ends inside the size field, no end magic can follow
    HeaderFaultless(src);
    DriveFaultless(at.sched, |at.input|, 4);
    if !SizeSlip(at, stale) {
      CanonicalWithoutSlip(src, stale, limit);
    }
  }

  /** A frame is accepted exactly if its type is known and its payload fits into memory. */
  lemma AcceptedIff(src: Source, stale: Memory, limit: Limit, m: Message, rest: seq<Byte>)
    requires Faultless(src.sched) && src.input == Encode(m) + rest
    ensures Receive(src, stale, limit).Received? <==> m.kind <= 0x7 && |m.data| <= limit
  {
    var r := Receive(src, stale, limit);
    if r.Received? {
      FaultlessIsCanonical(src, stale, limit);
      PrefixFree(m, r.msg, rest, r.src.input);
    }
    if m.kind <= 0x7 && |m.data| <= limit {
      ReceiveComplete(src, stale, limit, m, rest);
    }
  }

  /** A stream whose size field is cut by a read error after three zero bytes and which goes on with the end magic. */
  function SlippingSource(): Source {
    Source(PutU16(MSG_MAGIC_BEGIN) + [CHANNEL_DATA] + [0, 0] + [0, 0] + [0, 0, 0] + PutU16(MSG_MAGIC_END),
           [Upto(2), Upto(1), Upto(2), Upto(2), Upto(3), Error, Upto(2)])
  }

  /** The slip happens: an ill-formed stream is accepted as an empty message. */
  lemma SlipExists(stale: Memory, limit: Limit)
    requires stale[3] == 0
    ensures !Canonical(SlippingSource(), stale, limit)
  {
    SlipHeader();
    SlipAtSize(stale, limit);
    var r := Receive(SlippingSource(), stale, limit);
    assert r.Received? && |Encode(r.msg) + r.src.input| == 13;
    assert |SlippingSource().input| == 12;
  }

  lemma SlipHeader()
    ensures Header(SlippingSource())
            == HeaderResult(true, CHANNEL_DATA, 0, 0,
                            Source([0, 0, 0] + PutU16(MSG_MAGIC_END), [Upto(3), Error, Upto(2)]))
  {
    hide Drive;
    var s4 := Source([0, 0, 0] + PutU16(MSG_MAGIC_END), [Upto(3), Error, Upto(2)]);
    var s3 := Source([0, 0] + s4.input, [Upto(2)] + s4.sched);
    var s2 := Source([0, 0] + s3.input, [Upto(2)] + s3.sched);
    var s1 := Source([CHANNEL_DATA] + s2.input, [Upto(1)] + s2.sched);
    PullChunk(PutU16(MSG_MAGIC_BEGIN), s1.input, s1.sched, SlippingSource());
    PullChunk([CHANNEL_DATA], s2.input, s2.sched, s1);
    PullChunk([0, 0], s3.input, s3.sched, s2);
    PullChunk([0, 0], s4.input, s4.sched, s3);
    U16RoundTrip(MSG_MAGIC_BEGIN, [0, 0]);
  }

  lemma PullChunk(head: seq<Byte>, rest: seq<Byte>, later: Schedule, src: Source)
    requires head != []
    requires src.input == head + rest && src.sched == [Upto(|head|)] + later
    ensures Pull(src, |head|) == Pulled(true, head, Source(rest, later))
  {
    var d := Drive(src.sched, |src.input|, |head|);
    assert Later(src.sched) == later;
    assert Drive(later, |rest|, 0) == Driven(true, 0, later);
    assert d == Driven(true, |head|, later);
  }

  lemma SlipAtSize(stale: Memory, limit: Limit)
    requires stale[3] == 0
    ensures var src := Source([0, 0, 0] + PutU16(MSG_MAGIC_END), [Upto(3), Error, Upto(2)]);
            Body(src, stale, limit, CHANNEL_DATA, 0, 0) == Received(Message(CHANNEL_DATA, 0, 0, []), Source([], []))
  {
    var src := Source([0, 0, 0] + PutU16(MSG_MAGIC_END), [Upto(3), Error, Upto(2)]);
    assert Later(src.sched) == [Error, Upto(2)];
    var d := Drive(src.sched, 5, 4);
    assert d == Driven(false, 3, [Upto(2)]);
    var sz := Pull(src, 4);
    assert sz.bytes + stale[3..] == [0, 0, 0, 0];
    PullChunk(PutU16(MSG_MAGIC_END), [], [], sz.src);
    U16RoundTrip(MSG_MAGIC_END, [0, 0]);
  }

  /**
   Over all streams and all schedules, read errors included, msg_read accepts only frames
   if and only if the last byte of the caller's size field is not zero when the call starts.
  */
  lemma CanonicalIffSizeFieldArmed(stale: Memory, limit: Limit)
    ensures (forall src :: Canonical(src, stale, limit)) <==> stale[3] != 0
  {
    if stale[3] == 0 {
      SlipExists(stale, limit);
    } else {
      forall src
        ensures Canonical(src, stale, limit)
      {
        var sz := Pull(Header(src).src, 4);
        if !sz.ok {
          assert (sz.bytes + stale[|sz.bytes|..])[3] == stale[3];
        }
        CanonicalWithoutSlip(src, stale, limit);
      }
    }
  }

  /** One call, exactly: what it accepted is a frame unless a failed size field read as zero. */
  lemma CanonicalIffNoSlip(src: Source, stale: Memory, limit: Limit)
    ensures Receive(src, stale, limit).Received?
            ==> (Canonical(src, stale, limit) <==> !SizeSlip(Header(src).src, stale))
  {
    var h, r := Header(src), Receive(src, stale, limit);
    if r.Received? {
      if SizeSlip(h.src, stale) {
        SlipIsShort(h.src, stale, limit, h.kind, h.channel, h.client);
        HeaderSound(src);
        assert |src.input| < 13 + |r.src.input| <= |Encode(r.msg) + r.src.input|;
      } else {
        CanonicalWithoutSlip(src, stale, limit);
      }
    }
  }

  /** A slip consumes less than a size field and an end magic. */
  lemma SlipIsShort(src: Source, stale: Memory, limit: Limit, kind: Byte, channel: U16, client: U16)
    requires SizeSlip(src, stale)
    ensures var r := Body(src, stale, limit, kind, channel, client);
            r.Received? ==> |src.input| < 6 + |r.src.input|
  {
    var p := ReceivePayload(src, stale, limit);
    PullSplits(src, 4);
    FinishSound(p.src, Message(kind, channel, client, []));
  }

  // ----- Consequences over whole streams

  lemma CutIsNoFrame(m: Message, cut: nat, n: Message, rest: seq<Byte>)
    requires cut < |Encode(m)|
    ensures Encode(m)[..cut] != Encode(n) + rest
  {
    if Encode(m)[..cut] == Encode(n) + rest {
      var tail := Encode(m)[cut..];
      assert Encode(n) + (rest + tail) == Encode(m) + [];
      PrefixFree(n, m, rest + tail, []);
    }
  }

  /** A stream that ends inside a frame is rejected. */
  lemma TruncationRejected(src: Source, stale: Memory, limit: Limit, m: Message, cut: nat)
    requires Faultless(src.sched)
    requires cut < |Encode(m)|
    requires src.input == Encode(m)[..cut]
    ensures Receive(src, stale, limit).Rejected?
  {
    FaultlessIsCanonical(src, stale, limit);
    var r := Receive(src, stale, limit);
    if r.Received? {
      CutIsNoFrame(m, cut, r.msg, r.src.input);
    }
  }

  /** With an armed size field it is rejected under every schedule, read errors included. */
  lemma TruncationRejectedArmed(src: Source, stale: Memory, limit: Limit, m: Message, cut: nat)
    requires stale[3] != 0
    requires cut < |Encode(m)|
    requires src.input == Encode(m)[..cut]
    ensures Receive(src, stale, limit).Rejected?
  {
    CanonicalIffSizeFieldArmed(stale, limit);
    assert Canonical(src, stale, limit);
    var r := Receive(src, stale, limit);
    if r.Received? {
      CutIsNoFrame(m, cut, r.msg, r.src.input);
    }
  }

  /** Writing a list of messages, one msg_write after the other. */
  function SendAll(sched: Schedule, ms: seq<Message>): Pushed
    decreases |ms|
  {
    if ms == [] then Pushed(true, [], sched)
    else
      var p := Send(sched, ms[0]);
      if !p.ok then p
      else
        var q := SendAll(p.sched, ms[1..]);
        Pushed(q.ok, p.wire + q.wire, q.sched)
  }

  datatype Batch = Batch(ok: bool, msgs: seq<Message>, src: Source)

  /** As many msg_reads as there are entries in stales, each starting from its own stale size field. */
  function ReceiveAll(src: Source, stales: seq<Memory>, limit: Limit): Batch
    decreases |stales|
  {
    if stales == [] then Batch(true, [], src)
    else
      match Receive(src, stales[0], limit)
      case Rejected(s) => Batch(false, [], s)
      case Received(m, s) =>
        var rest := ReceiveAll(s, stales[1..], limit);
        Batch(rest.ok, [m] + rest.msgs, rest.src)
  }

  lemma {:induction false} SendAllIsEncodeAll(sched: Schedule, ms: seq<Message>)
    ensures var p := SendAll(sched, ms);
            p.wire <= EncodeAll(ms) && (p.ok <==> p.wire == EncodeAll(ms)) && (Faultless(sched) ==> p.ok)
    decreases |ms|
  {
    if ms != [] {
      SendIsEncode(sched, ms[0]);
      SendAllIsEncodeAll(Send(sched, ms[0]).sched, ms[1..]);
    }
  }

  lemma {:induction false} ReceiveAllComplete(src: Source, stales: seq<Memory>, limit: Limit,
                                              ms: seq<Message>, rest: seq<Byte>)
    requires Faultless(src.sched)
    requires |stales| == |ms|
    requires forall m :: m in ms ==> m.kind <= 0x7 && |m.data| <= limit
    requires src.input == EncodeAll(ms) + rest
    ensures var b := ReceiveAll(src, stales, limit);
            b.ok && b.msgs == ms && b.src.input == rest
    decreases |ms|
  {
    if ms == [] {
      assert src.input == rest;
    } else {
      var more := EncodeAll(ms[1..]) + rest;
      assert src.input == Encode(ms[0]) + more;
      ReceiveComplete(src, stales[0], limit, ms[0], more);
      var s := Receive(src, stales[0], limit).src;
      ReceiveAllComplete(s, stales[1..], limit, ms[1..], rest);
    }
  }

  /**
   The stream round trip: whatever schedule the messages were written under, if the writes succeeded then
   reading them back under any splitting of the stream returns the same list and leaves what followed.
  */
  lemma StreamRoundTrip(out: Schedule, back: Schedule, stales: seq<Memory>, limit: Limit,
                        ms: seq<Message>, rest: seq<Byte>)
    requires Faultless(back)
    requires |stales| == |ms|
    requires forall m :: m in ms ==> m.kind <= 0x7 && |m.data| <= limit
    ensures Faultless(out) ==> SendAll(out, ms).ok
    ensures SendAll(out, ms).ok ==>
              var b := ReceiveAll(Source(SendAll(out, ms).wire + rest, back), stales, limit);
              b.ok && b.msgs == ms && b.src.input == rest
  {
    SendAllIsEncodeAll(out, ms);
    if SendAll(out, ms).ok {
      ReceiveAllComplete(Source(EncodeAll(ms) + rest, back), stales, limit, ms, rest);
    }
  }
}

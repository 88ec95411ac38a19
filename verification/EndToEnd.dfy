/** The broadcast protocol over the tunnel: what a session believes after reading the server's stream. */
module EndToEnd {
  import opened Bytes
  import opened TunnelCodec
  import opened Delivery
  import opened TunnelSchedule
  import opened TunnelProperties
  import opened NoticeCodec
  import opened BroadcastModel
  import opened BroadcastProperties

  /** Everything the server sends has a type that msg_read accepts. */
  lemma EmittedKinds(h: Hash, s: State, r: Message, out: seq<Message>)
    requires WellFormed(h, s) && Admissible(r) && Emits(h, s, r, out)
    ensures forall m :: m in out ==> m.kind <= 0x7
  {
    if r.kind == CHANNEL_UNSUBSCRIBE && r.client in s.user {
      UnsubscribeStep(h, s, r, out);
      var n := |out| - 1;
      assert out == out[..n] + [out[n]];
      assert forall m :: m in out[..n] ==> m.kind == CHANNEL_CTRL;
    } else {
      forall m | m in out
        ensures m.kind <= 0x7
      {
        var i :| 0 <= i < |out| && out[i] == m;
        EmittedKind(h, s, r, out, i);
      }
    }
  }

  lemma EmittedKind(h: Hash, s: State, r: Message, out: seq<Message>, i: nat)
    requires WellFormed(h, s) && Admissible(r) && Emits(h, s, r, out)
    requires r.kind != CHANNEL_UNSUBSCRIBE && i < |out|
    ensures out[i].kind <= 0x7
  {
    if Asks(s, r, BC_SUBSCRIPTION) {
      JoinStep(h, s, r, out);
    } else if Asks(s, r, BC_UNSUBSCRIPTION) {
      LeaveStep(h, s, r, out);
    } else if Asks(s, r, BC_QUERY_USER) || Asks(s, r, BC_QUERY_GROUP) {
      QueryStep(h, s, r, out);
    }
  }

  lemma {:induction false} RunKinds(h: Hash, s: State, reqs: seq<Message>, outs: seq<seq<Message>>)
    requires WellFormed(h, s) && IsRun(h, s, reqs, outs)
    ensures forall m :: m in Flatten(outs) ==> m.kind <= 0x7
    decreases |reqs|
  {
    if reqs != [] {
      var n := |reqs| - 1;
      RunKinds(h, s, reqs[..n], outs[..n]);
      EmittedKinds(h, After(h, s, reqs[..n]), reqs[n], outs[n]);
    }
  }

  /**
   Roster replay over the wire. The server's messages of a run are written with msg_write under any schedule that
   lets the writes succeed, and read back with msg_read under any splitting of the stream; the session that asked
   for the users of its group still ends up with exactly the roster.
  */
  lemma RosterOverTheWire(h: Hash, s: State, query: Message, answer: seq<Message>,
                          reqs: seq<Message>, outs: seq<seq<Message>>, g: Gid,
                          out: Schedule, back: Schedule, stales: seq<Memory>, limit: Limit)
    requires WellFormed(h, s) && Admissible(query)
    requires Asks(s, query, BC_QUERY_USER) && NamedGid(query) == g && Emits(h, s, query, answer)
    requires IsRun(h, s, reqs, outs) && StaysIn(h, s, reqs, query.client, g)
    requires |stales| == |answer + Flatten(outs)| && Faultless(back)
    requires forall m :: m in answer + Flatten(outs) ==> |m.data| <= limit
    ensures var wrote := SendAll(out, answer + Flatten(outs));
            var read := ReceiveAll(Source(wrote.wire, back), stales, limit);
            wrote.ok ==>
              && read.ok && read.src.input == []
              && Replay(query.client, g, {}, read.msgs) == Roster(After(h, s, reqs), g)
  {
    hide *;
    var ms := answer + Flatten(outs);
    EmittedKinds(h, s, query, answer);
    RunKinds(h, s, reqs, outs);
    RosterReplay(h, s, query, answer, reqs, outs, g);
    StreamRoundTrip(out, back, stales, limit, ms, []);
    assert SendAll(out, ms).wire + [] == SendAll(out, ms).wire;
  }
}

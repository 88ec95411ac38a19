/** The camera publisher: one driver buffer, one set of settings, and the clients that are told about them. */
module Camera {
  import opened Bytes
  import opened TunnelCodec
  import opened Delivery

  // ----- Settings on the wire: [width][height][fps][quality]

  datatype Settings = Settings(width: U16, height: U16, fps: Byte, quality: Byte)

  function PutSettings(s: Settings): (p: seq<Byte>)
    ensures |p| == 6
  {
    PutU16(s.width) + PutU16(s.height) + [s.fps] + [s.quality]
  }

  function GetSettings(p: seq<Byte>): Settings
    requires |p| == 6
  {
    Settings(GetU16(p[0..2]), GetU16(p[2..4]), p[4], p[5])
  }

  /** What a client sends as a request is what every client is told, and it decodes to the settings in force. */
  lemma SettingsRoundTrip(s: Settings, p: seq<Byte>)
    requires |p| == 6
    ensures GetSettings(PutSettings(s)) == s
    ensures PutSettings(GetSettings(p)) == p
  {
    U16RoundTrip(s.width, p[0..2]);
    U16RoundTrip(s.height, p[2..4]);
    assert PutSettings(s)[0..2] == PutU16(s.width) && PutSettings(s)[2..4] == PutU16(s.height);
    assert p == p[0..2] + p[2..4] + [p[4]] + [p[5]];
  }

  /** The payload byte by byte, and what a request sets: width first, both sizes in network order. */
  lemma SettingsLayout(s: Settings, q: seq<Byte>)
    requires |q| == 6
    ensures var p := PutSettings(s);
            && (p[0] as int) * 0x100 + p[1] == s.width && (p[2] as int) * 0x100 + p[3] == s.height
            && p[4] == s.fps && p[5] == s.quality
    ensures var t := GetSettings(q);
            && t.width == (q[0] as int) * 0x100 + q[1] && t.height == (q[2] as int) * 0x100 + q[3]
            && t.fps == q[4] && t.quality == q[5]
  {
    NetworkOrder16(s.width, q[0..2]);
    NetworkOrder16(s.height, q[2..4]);
  }

  /** The payload of the last control message sent to c. */
  function LastCtrl(sent: seq<Message>, c: ClientId): (p: seq<Byte>)
    decreases |sent|
  {
    if sent == [] then []
    else
      var m := sent[|sent| - 1];
      if m.kind == CHANNEL_CTRL && m.client == c then m.data else LastCtrl(sent[..|sent| - 1], c)
  }

  lemma {:induction false} LastCtrlAfter(sent: seq<Message>, out: seq<Message>, order: seq<ClientId>, m: Message,
                                         c: ClientId)
    requires IsDelivery(out, order, m)
    ensures LastCtrl(sent + out, c) == if m.kind == CHANNEL_CTRL && c in order then m.data else LastCtrl(sent, c)
    decreases |out|
  {
    if out == [] {
      assert sent + out == sent;
    } else {
      var n := |out| - 1;
      LastCtrlAfter(sent, out[..n], order[..n], m, c);
      assert (sent + out)[..|sent + out| - 1] == sent + out[..n];
      assert order == order[..n] + [order[n]];
    }
  }

  // ----- The driver

  /** An opened video device with one buffer. Any call may fail, and then changes nothing but the count of failures. */
  class Device {
    var isOpen: bool
    /** The buffer is queued: the driver may be writing to it. */
    var holds: bool
    ghost var faults: nat

    constructor ()
      ensures !isOpen && !holds && faults == 0
    {
      isOpen, holds, faults := false, false, 0;
    }

    ghost function Faults(ok: bool, before: nat): nat {
      if ok then before else before + 1
    }

    /** open(2): a fresh file, or none at all. */
    method Open() returns (ok: bool)
      requires !holds
      modifies this
      ensures isOpen == ok && !holds && faults == Faults(ok, old(faults))
    {
      ok := *;
      isOpen := ok;
      faults := Faults(ok, faults);
    }

    /** close(2). */
    method Close()
      requires isOpen && !holds
      modifies this`isOpen
      ensures !isOpen
    {
      isOpen := false;
    }

    /** VIDIOC_QBUF. */
    method Queue() returns (ok: bool)
      requires isOpen && !holds
      modifies this`holds, this`faults
      ensures holds == ok && faults == Faults(ok, old(faults))
    {
      ok := *;
      holds := ok;
      faults := Faults(ok, faults);
    }

    /** VIDIOC_DQBUF. */
    method Dequeue() returns (ok: bool)
      requires isOpen && holds
      modifies this`holds, this`faults
      ensures holds == !ok && faults == Faults(ok, old(faults))
    {
      ok := *;
      holds := !ok;
      faults := Faults(ok, faults);
    }

    /** VIDIOC_S_FMT, S_PARM, REQBUFS, QUERYBUF and STREAMON. */
    method Control() returns (ok: bool)
      modifies this`faults
      ensures ok ==> isOpen
      ensures faults == Faults(ok, old(faults))
    {
      var works: bool := *;
      ok := isOpen && works;
      faults := Faults(ok, faults);
    }

    /** munmap(2) of the buffer. */
    method Unmap() returns (ok: bool)
      requires !holds
      modifies this`faults
      ensures faults == Faults(ok, old(faults))
    {
      ok := *;
      faults := Faults(ok, faults);
    }
  }

  // ----- The publisher

  /** What one turn of the main loop finds after select. */
  datatype Event =
    | SelectFailed
    | NothingReady
    | Unreadable
    | Incoming(msg: Message)
    | FrameReady(jpeg: Payload)

  /** How opening the channel ends: no connection or no answer, an answer that refuses it, or one that grants it. */
  datatype Handshake = Broken | Denied | Granted

  /** The settings after a stretch of events: the last request of the right size decides. */
  function InForce(s: Settings, events: seq<Event>): Settings
    decreases |events|
  {
    if events == [] then s
    else if IsRequest(events[|events| - 1]) then GetSettings(events[|events| - 1].msg.data)
    else InForce(s, events[..|events| - 1])
  }

  predicate IsRequest(e: Event) {
    e.Incoming? && e.msg.kind == CHANNEL_CTRL && |e.msg.data| == 6
  }

  /** The clients after one event. */
  function Subscribed(clients: set<ClientId>, e: Event): set<ClientId> {
    if e.Incoming? && e.msg.kind == CHANNEL_SUBSCRIBE then clients + {e.msg.client}
    else if e.Incoming? && e.msg.kind == CHANNEL_UNSUBSCRIBE then clients - {e.msg.client}
    else clients
  }

  function SubscribedAll(clients: set<ClientId>, events: seq<Event>): set<ClientId>
    decreases |events|
  {
    if events == [] then clients
    else Subscribed(SubscribedAll(clients, events[..|events| - 1]), events[|events| - 1])
  }

  /** Only six-byte CTRL messages (type 7) set anything, and the last of them decides. */
  lemma {:induction false} InForceMeaning(s: Settings, events: seq<Event>, i: int)
    requires -1 <= i < |events|
    requires forall j :: i < j < |events| ==>
               !(events[j].Incoming? && events[j].msg.kind == 0x7 && |events[j].msg.data| == 6)
    requires i >= 0 ==> events[i].Incoming? && events[i].msg.kind == 0x7 && |events[i].msg.data| == 6
    ensures InForce(s, events) == if i < 0 then s else GetSettings(events[i].msg.data)
    decreases |events|
  {
    if events != [] && i < |events| - 1 {
      InForceMeaning(s, events[..|events| - 1], i);
    }
  }

  /** Clients come with a message of type 2 and go with one of type 3: c is one if the last of these it sent is a 2. */
  lemma {:induction false} SubscribedMeaning(clients: set<ClientId>, events: seq<Event>, c: ClientId, i: int)
    requires -1 <= i < |events|
    requires forall j :: i < j < |events| ==>
               !(events[j].Incoming? && events[j].msg.client == c && events[j].msg.kind in {0x2, 0x3})
    requires i >= 0 ==> events[i].Incoming? && events[i].msg.client == c && events[i].msg.kind in {0x2, 0x3}
    ensures c in SubscribedAll(clients, events) <==> if i < 0 then c in clients else events[i].msg.kind == 0x2
    decreases |events|
  {
    if events != [] && i < |events| - 1 {
      SubscribedMeaning(clients, events[..|events| - 1], c, i);
    }
  }

  /** One copy of m for each session in `to` was written or lost on the way. */
  ghost predicate Attempted(out: seq<Message>, gone: seq<Message>, to: set<ClientId>, m: Message) {
    exists reached: seq<ClientId>, unreached: seq<ClientId> ::
      Lists(reached + unreached, to) && IsDelivery(out, reached, m) && IsDelivery(gone, unreached, m)
  }

  /** Every client in `to` gets one attempt, nobody else gets any, and nothing but m is sent. */
  lemma AttemptedMeaning(out: seq<Message>, gone: seq<Message>, to: set<ClientId>, m: Message)
    requires Attempted(out, gone, to, m)
    ensures forall x :: x in out + gone ==> x.client in to && x == m.(client := x.client)
    ensures forall c :: c in to ==> multiset(out + gone)[m.(client := c)] == 1
  {
    var a, b :| Lists(a + b, to) && IsDelivery(out, a, m) && IsDelivery(gone, b, m);
    assert IsDelivery(out + gone, a + b, m);
    forall x | x in out + gone
      ensures x.client in to && x == m.(client := x.client)
    {
      var i :| 0 <= i < |out + gone| && (out + gone)[i] == x;
      assert (a + b)[i] in a + b;
    }
    forall c | c in to
      ensures multiset(out + gone)[m.(client := c)] == 1
    {
      DeliveryTimes(out + gone, a + b, m, c);
    }
  }

  class Publisher {
    const device: Device
    var settings: Settings
    var queued: bool
    var mapped: bool
    var clients: set<ClientId>
    var running: bool
    var sent: seq<Message>

    /** The messages whose write failed. */
    ghost var lost: seq<Message>
    /** The clients whose last settings message is among the lost. */
    ghost var missed: set<ClientId>

    /** The flag agrees with the driver; a queued buffer is mapped and belongs to an open device. */
    ghost predicate Disciplined()
      reads this, device
    {
      && queued == device.holds
      && (queued ==> mapped && device.isOpen)
    }

    /** While the loop runs there is a device to queue to, and every client knows the settings in force. */
    ghost predicate Valid()
      reads this, device
    {
      && Disciplined()
      && (forall c :: c in missed ==> LostCtrl(lost, c))
      && (running ==> mapped && device.isOpen && Coherent())
    }

    static ghost predicate LostCtrl(lost: seq<Message>, c: ClientId) {
      exists i :: 0 <= i < |lost| && lost[i].kind == CHANNEL_CTRL && lost[i].client == c
    }

    ghost predicate Coherent()
      reads this
    {
      forall c :: c in clients - missed ==> LastCtrl(sent, c) == PutSettings(settings)
    }

    /** main up to the loop; the program exits if the default settings cannot be applied. */
    constructor ()
      ensures !running && !queued && !mapped && clients == {} && sent == [] && lost == [] && Valid() && fresh(device)
      ensures settings == Settings(640, 480, 5, 60)
    {
      device := new Device();
      settings := Settings(640, 480, 5, 60);
      queued, mapped, clients, running, sent := false, false, {}, false, [];
      lost, missed := [], {};
    }

    /** The rest of main up to the loop; ok tells whether the loop is entered with the channel granted and streaming. */
    method Start(hello: Handshake) returns (ok: bool)
      requires Valid() && !running && clients == {} && !mapped && !device.isOpen
      modifies this`queued, this`mapped, this`running, device
      ensures Valid() && !queued
      ensures running == ok
      ensures ok <==> hello.Granted? && device.faults == old(device.faults)
      ensures hello.Broken? && device.faults == old(device.faults) ==> !mapped && !device.isOpen
    {
      ok := ApplySetting();
      if !ok {
        return;
      }
      if hello.Broken? {
        var _ := Cleanup(true);
        return false;
      }
      running := hello.Granted?;
      var streaming := device.Control();
      if !streaming {
        running := false;
      }
      ok := running;
    }

    /** cam_cleanup. */
    method Cleanup(closeFd: bool) returns (ok: bool)
      requires Disciplined()
      modifies this`queued, this`mapped, device
      ensures Disciplined()
      ensures ok ==> !queued && !mapped && (closeFd ==> !device.isOpen)
      ensures queued ==> old(queued)
      ensures device.faults == device.Faults(ok, old(device.faults))
    {
      if queued {
        ok := device.Dequeue();
        if !ok {
          return;
        }
        queued := false;
      }
      ok := device.Control();
      if !ok {
        return;
      }
      if mapped {
        ok := device.Unmap();
        if !ok {
          return;
        }
        mapped := false;
      }
      if closeFd && device.isOpen {
        device.Close();
      }
    }

    /** cam_apply_setting. */
    method ApplySetting() returns (ok: bool)
      requires Disciplined()
      modifies this`queued, this`mapped, device
      ensures Disciplined()
      ensures ok ==> !queued && mapped && device.isOpen
      ensures queued ==> old(queued)
      ensures device.faults == device.Faults(ok, old(device.faults))
    {
      if mapped {
        ok := Cleanup(true);
        if !ok {
          return;
        }
      }
      ok := device.Open();
      if !ok {
        return;
      }
      ok := device.Control();  // format
      if !ok {
        return;
      }
      ok := device.Control();  // frame rate
      if !ok {
        return;
      }
      ok := device.Control();  // request the buffer
      if !ok {
        return;
      }
      ok := device.Control();  // query and map it
      if !ok {
        return;
      }
      mapped := true;
    }

    /** msg_write; a failed write delivers nothing. */
    method Write(m: Message) returns (ok: bool)
      modifies this`sent, this`lost
      ensures sent == if ok then old(sent) + [m] else old(sent)
      ensures lost == if ok then old(lost) else old(lost) + [m]
    {
      ok := *;
      if ok {
        sent := sent + [m];
      } else {
        lost := lost + [m];
      }
    }

    /** bst_for_each over send_data: one attempt to write m to each client. */
    method SendAll(m: Message) returns (ghost reached: seq<ClientId>, ghost unreached: seq<ClientId>)
      modifies this`sent, this`lost
      ensures Lists(reached + unreached, clients)
      ensures old(sent) <= sent && IsDelivery(sent[|old(sent)|..], reached, m)
      ensures old(lost) <= lost && IsDelivery(lost[|old(lost)|..], unreached, m)
    {
      var todo := clients;
      ghost var out: seq<Message>, gone: seq<Message> := [], [];
      reached, unreached := [], [];
      while todo != {}
        invariant todo <= clients
        invariant Lists(reached + unreached, clients - todo)
        invariant sent == old(sent) + out && IsDelivery(out, reached, m)
        invariant lost == old(lost) + gone && IsDelivery(gone, unreached, m)
        decreases todo
      {
        var c :| c in todo;
        var ok := Write(m.(client := c));
        WalkTurn(reached + unreached, clients, todo, c);
        if ok {
          MoveUp(reached, unreached, c, clients - (todo - {c}));
          reached, out := reached + [c], out + [m.(client := c)];
        } else {
          assert reached + unreached + [c] == reached + (unreached + [c]);
          unreached, gone := unreached + [c], gone + [m.(client := c)];
        }
        todo := todo - {c};
      }
      assert clients - todo == clients;
      assert sent[|old(sent)|..] == out && lost[|old(lost)|..] == gone;
    }

    static lemma MoveUp(xs: seq<ClientId>, ys: seq<ClientId>, c: ClientId, all: set<ClientId>)
      requires Lists(xs + ys + [c], all)
      ensures Lists(xs + [c] + ys, all)
    {
      var s, t := xs + ys + [c], xs + [c] + ys;
      assert multiset(s) == multiset(t);
      forall x | x in all
        ensures x in t
      {
        assert x in s && x in multiset(t);
      }
      forall x | x in t
        ensures x in all
      {
        assert x in multiset(s);
      }
      forall i, j | 0 <= i < j < |t|
        ensures t[i] != t[j]
      {
        var i' := if i < |xs| then i else if i == |xs| then |s| - 1 else i - 1;
        var j' := if j < |xs| then j else if j == |xs| then |s| - 1 else j - 1;
        assert t[i] == s[i'] && t[j] == s[j'];
      }
    }

    /** cam_send_frame_client. */
    method SendFrame(jpeg: Payload) returns (ok: bool)
      requires Valid() && clients != {}
      modifies this`queued, this`sent, this`lost, device`holds, device`faults
      ensures Valid()
      ensures ok ==> !queued
      ensures device.faults == device.Faults(ok, old(device.faults))
      ensures old(sent) <= sent && old(lost) <= lost
      ensures var out, gone := sent[|old(sent)|..], lost[|old(lost)|..];
              if old(queued) then
                exists channel: U16 :: Attempted(out, gone, clients, Message(CHANNEL_DATA, channel, 0, jpeg))
              else ok && out == [] && gone == []
    {
      if !queued {
        return true;
      }
      var channel: U16 := *;
      ghost var before, lostBefore := sent, lost;
      var m := Message(CHANNEL_DATA, channel, 0, jpeg);
      ghost var reached, unreached := SendAll(m);
      assert Attempted(sent[|before|..], lost[|lostBefore|..], clients, m);
      assert sent == before + sent[|before|..];
      forall c
        ensures LastCtrl(sent, c) == LastCtrl(before, c)
      {
        LastCtrlAfter(before, sent[|before|..], reached, m, c);
      }
      KeepsLost(lostBefore, lost);
      ok := device.Dequeue();
      if ok {
        queued := false;
      }
    }

    static lemma KeepsLost(lost: seq<Message>, more: seq<Message>)
      requires lost <= more
      ensures forall c :: LostCtrl(lost, c) ==> LostCtrl(more, c)
    {
      forall c | LostCtrl(lost, c)
        ensures LostCtrl(more, c)
      {
        var i :| 0 <= i < |lost| && lost[i].kind == CHANNEL_CTRL && lost[i].client == c;
        assert more[i] == lost[i];
      }
    }

    /** A CHANNEL_SUBSCRIBE: the new client is told the settings in force. */
    method Subscribe(m: Message)
      requires Valid() && m.kind == CHANNEL_SUBSCRIBE
      modifies this`clients, this`running, this`sent, this`lost, this`missed
      ensures Valid() && clients == old(clients) + {m.client}
      ensures old(sent) <= sent && old(lost) <= lost
      ensures var reply, out, gone := Message(CHANNEL_CTRL, m.channel, m.client, PutSettings(settings)),
                                      sent[|old(sent)|..], lost[|old(lost)|..];
              if gone == [] then out == [reply] && running == old(running) else out == [] && gone == [reply] && !running
    {
      clients := clients + {m.client};
      ghost var before := sent;
      var reply := Message(CHANNEL_CTRL, m.channel, m.client, PutSettings(settings));
      KeepsLost(lost, lost + [reply]);
      var ok := Write(reply);
      if !ok {
        running := false;
      } else {
        missed := missed - {m.client};
        forall c
          ensures LastCtrl(sent, c) == if c == m.client then reply.data else LastCtrl(before, c)
        {
          LastCtrlAfter(before, [reply], [m.client], reply, c);
        }
      }
    }

    /** A CHANNEL_CTRL: new settings are applied, and if that works every client is told. */
    method Reconfigure(m: Message)
      requires Valid() && m.kind == CHANNEL_CTRL
      modifies this`settings, this`queued, this`mapped, this`running, this`sent, this`lost, this`missed, device
      ensures Valid()
      ensures settings == if |m.data| == 6 then GetSettings(m.data) else old(settings)
      ensures old(sent) <= sent && old(lost) <= lost
      ensures running ==> old(running)
      ensures device.faults >= old(device.faults)
      ensures device.faults == old(device.faults) ==> running == old(running)
      ensures var out, gone := sent[|old(sent)|..], lost[|old(lost)|..];
              if |m.data| != 6 then out == [] && gone == [] && running == old(running) && queued == old(queued)
              else
                || Attempted(out, gone, clients, Message(CHANNEL_CTRL, m.channel, 0, m.data))
                || (out == [] && gone == [] && !running && device.faults > old(device.faults))
      ensures running && |m.data| == 6 ==> !queued
    {
      if |m.data| != 6 {
        return;
      }
      settings := GetSettings(m.data);
      SettingsRoundTrip(settings, m.data);
      var ok := ApplySetting();
      if !ok {
        ok := Cleanup(false);
        running := false;
        return;
      }
      ok := device.Control();  // restart the streaming
      if !ok {
        running := false;
        return;
      }
      TellEveryone(Message(CHANNEL_CTRL, m.channel, 0, PutSettings(settings)));
    }

    /** Sends the settings in force to every client. */
    method TellEveryone(reply: Message)
      requires reply.kind == CHANNEL_CTRL && reply.data == PutSettings(settings)
      modifies this`sent, this`lost, this`missed
      ensures Coherent() && (forall c :: c in missed ==> LostCtrl(lost, c))
      ensures old(sent) <= sent && old(lost) <= lost
      ensures Attempted(sent[|old(sent)|..], lost[|old(lost)|..], clients, reply)
    {
      ghost var before, lostBefore := sent, lost;
      ghost var reached, unreached := SendAll(reply);
      ghost var out, gone := sent[|before|..], lost[|lostBefore|..];
      assert Attempted(out, gone, clients, reply);
      missed := set c | c in unreached;
      assert sent == before + out && lost == lostBefore + gone;
      forall c | c in clients - missed
        ensures LastCtrl(sent, c) == PutSettings(settings)
      {
        assert c in reached + unreached;
        LastCtrlAfter(before, out, reached, reply, c);
      }
      forall c | c in missed
        ensures LostCtrl(lost, c)
      {
        var i :| 0 <= i < |unreached| && unreached[i] == c;
        assert lost[|lostBefore| + i] == gone[i];
      }
    }

    /** One turn of the main loop. */
    method Turn(e: Event)
      requires Valid() && running
      modifies this, device
      ensures Valid()
      ensures settings == InForce(old(settings), [e])
      ensures clients == Subscribed(old(clients), e)
      ensures queued == device.holds
      ensures old(sent) <= sent && old(lost) <= lost
      ensures var out, gone := sent[|old(sent)|..], lost[|old(lost)|..];
              if e.FrameReady? && old(clients) != {} then
                || (exists channel: U16 :: Attempted(out, gone, clients, Message(CHANNEL_DATA, channel, 0, e.jpeg)))
                || (out == [] && gone == [] && !running)
              else if e.Incoming? && e.msg.kind == CHANNEL_SUBSCRIBE then
                var reply := Message(CHANNEL_CTRL, e.msg.channel, e.msg.client, PutSettings(settings));
                if gone == [] then out == [reply] else out == [] && gone == [reply] && !running
              else if IsRequest(e) then
                || Attempted(out, gone, clients, Message(CHANNEL_CTRL, e.msg.channel, 0, e.msg.data))
                || (out == [] && gone == [] && !running)
              else out == [] && gone == []
      ensures e.SelectFailed? || e.Unreadable? ==> !running
      ensures !running ==> || e.SelectFailed? || e.Unreadable? || device.faults > old(device.faults)
                           || (e.Incoming? && e.msg.kind == CHANNEL_SUBSCRIBE && |lost| > |old(lost)|)
      ensures running ==> queued == if IsRequest(e) then false
                                    else if old(clients) == {} then old(queued)
                                    else !e.FrameReady?
    {
      if clients != {} && !queued {
        var ok := device.Queue();
        if !ok {
          running := false;
        } else {
          queued := true;
        }
      }
      match e
      case SelectFailed =>
        running := false;
      case NothingReady =>
      case Unreadable =>
        running := false;
      case Incoming(m) =>
        if m.kind == CHANNEL_SUBSCRIBE {
          Subscribe(m);
        } else if m.kind == CHANNEL_UNSUBSCRIBE {
          clients := clients - {m.client};
        } else if m.kind == CHANNEL_CTRL {
          Reconfigure(m);
        }
      case FrameReady(jpeg) =>
        if clients != {} {
          var ok := SendFrame(jpeg);
          if !ok {
            running := false;
          }
        }
    }

    /**
     The loop of main, for any sequence of events: n of them are handled before it stops. As long as it runs,
     every client except those that missed their last settings message was last told the settings in force.
    */
    method Loop(events: seq<Event>) returns (n: nat)
      requires Valid()
      modifies this, device
      ensures Valid()
      ensures n <= |events| && (running ==> n == |events|)
      ensures settings == InForce(old(settings), events[..n])
      ensures clients == SubscribedAll(old(clients), events[..n])
      ensures old(sent) <= sent && old(lost) <= lost && queued == device.holds
      ensures running && lost == [] ==>
                forall c :: c in clients ==> LastCtrl(sent, c) == PutSettings(InForce(old(settings), events[..n]))
    {
      n := 0;
      while running && n < |events|
        invariant Valid() && n <= |events|
        invariant settings == InForce(old(settings), events[..n])
        invariant clients == SubscribedAll(old(clients), events[..n])
        invariant old(sent) <= sent && old(lost) <= lost
        decreases |events| - n
      {
        assert events[..n + 1][..n] == events[..n];
        Turn(events[n]);
        n := n + 1;
      }
    }

    /** main after start-up: the loop, then the cleanup. */
    method Run(events: seq<Event>) returns (ok: bool)
      requires Valid()
      modifies this, device
      ensures Disciplined() && queued == device.holds
      ensures ok ==> !queued && !mapped && !device.isOpen && !device.holds
    {
      var _ := Loop(events);
      ok := Cleanup(true);
    }
  }
}

/**
 The broadcast server: a table from client ids to handles that all sessions of a user share, a buffer that
 every control payload is written into, and the log of the messages sent.
*/
module BroadcastServer {
  import opened Bytes
  import opened TunnelCodec
  import opened Delivery
  import opened NoticeCodec
  import opened BroadcastModel

  /** bc_client_t. */
  class Handle {
    var ref: int
    const name: Name
    var groups: map<Gid, Name>

    constructor (name: Name)
      ensures ref == 1 && this.name == name && groups == map[]
    {
      ref := 1;
      this.name := name;
      groups := map[];
    }
  }

  type Table = map<ClientId, Handle>

  /** The client ids mapped to handle h. */
  ghost function SessionsOf(table: Table, h: Handle): set<ClientId> {
    set c | c in table && table[c] == h
  }

  lemma SessionAdded(table: Table, c: ClientId, h: Handle)
    requires c !in table
    ensures var after := table[c := h];
            && |SessionsOf(after, h)| == |SessionsOf(table, h)| + 1
            && forall g: Handle | g != h :: SessionsOf(after, g) == SessionsOf(table, g)
  {
    assert SessionsOf(table[c := h], h) == SessionsOf(table, h) + {c};
  }

  lemma SessionRemoved(table: Table, c: ClientId)
    requires c in table
    ensures var after, h := table - {c}, table[c];
            && |SessionsOf(after, h)| == |SessionsOf(table, h)| - 1
            && forall g: Handle | g != h :: SessionsOf(after, g) == SessionsOf(table, g)
  {
    var after, h := table - {c}, table[c];
    assert c in SessionsOf(table, h);
    assert SessionsOf(after, h) == SessionsOf(table, h) - {c};
  }

  lemma NoneListed<T>(none: set<T>)
    requires none == {}
    ensures Lists([], none)
  {
  }

  /** Listing the sessions of one more group after the pairs of the groups seen before. */
  lemma PairsExtend(pairs: seq<(Gid, ClientId)>, s: State, seen: set<Gid>, gid: Gid, cs: seq<ClientId>)
    returns (order: seq<(Gid, ClientId)>)
    requires gid !in seen
    requires Lists(pairs, Pairs(s, seen)) && Lists(cs, Members(s, gid))
    ensures Lists(order, Pairs(s, seen + {gid}))
    ensures |order| == |pairs| + |cs| && pairs <= order
    ensures forall i :: 0 <= i < |cs| ==> order[|pairs| + i] == (gid, cs[i])
  {
    var more := seq(|cs|, i requires 0 <= i < |cs| => (gid, cs[i]));
    order := pairs + more;
    forall p | p in order
      ensures p in Pairs(s, seen + {gid})
    {
    }
    forall p | p in Pairs(s, seen + {gid})
      ensures p in order
    {
      if p.0 == gid {
        var i :| 0 <= i < |cs| && cs[i] == p.1;
        assert order[|pairs| + i] == p;
      } else {
        assert p in Pairs(s, seen);
      }
    }
    forall i, j | 0 <= i < j < |order|
      ensures order[i] != order[j]
    {
      if i < |pairs| <= j {
        assert pairs[i] in pairs;
      }
    }
  }

  class Server {
    const hash: Hash
    var clients: map<ClientId, Handle>
    const buffer: array<Byte>
    var sent: seq<Message>

    /** The handles that were allocated and not yet freed. */
    ghost var live: set<Handle>
    /** The plain relation the table stands for. */
    ghost var model: State

    /**
     Table entries point to live handles only; a live handle counts its sessions and has at least one; no two
     live handles share a name.
    */
    ghost predicate Counted()
      reads this, live
    {
      && (forall c :: c in clients ==> clients[c] in live)
      && (forall h :: h in live ==> h.ref == |SessionsOf(clients, h)| && h.ref >= 1)
      && (forall h, k :: h in live && k in live && h.name == k.name ==> h == k)
    }

    /** Every session finds its user and that user's groups in its handle. */
    ghost predicate Shown()
      reads this, live
    {
      && model.user.Keys == clients.Keys
      && (forall c :: c in clients ==> clients[c] in live && model.user[c] == clients[c].name)
      && (forall h :: h in live ==> h.name in model.groups && model.groups[h.name] == h.groups)
    }

    ghost predicate Valid()
      reads this, live
    {
      buffer.Length >= 514 && Counted() && Shown() && WellFormed(hash, model)
    }

    constructor (hash: Hash, bufflen: nat)
      requires bufflen >= 514
      ensures Valid() && this.hash == hash && fresh(buffer)
      ensures clients == map[] && live == {} && model == INITIAL && sent == []
    {
      this.hash := hash;
      clients := map[];
      buffer := new Byte[bufflen];
      sent := [];
      live := {};
      model := INITIAL;
    }

    // ----- Helpers of the handlers

    /** memcpy into the message buffer. */
    method Put(at: nat, bytes: seq<Byte>)
      requires at + |bytes| <= buffer.Length
      modifies buffer
      ensures buffer[..] == old(buffer[..])[..at] + bytes + old(buffer[..])[at + |bytes|..]
    {
      forall i | 0 <= i < |bytes| {
        buffer[at + i] := bytes[i];
      }
    }

    /** Lays [code][size][user][gid][group] out in the buffer. */
    method PutNotice(code: Byte, user: Name, gid: Gid, group: Name) returns (size: nat)
      requires buffer.Length >= 514
      modifies buffer
      ensures size <= 514 && buffer[..size] == Notice(code, user, gid, group)
    {
      PutNoticeHead(code, user);
      var len := |user| + 2;
      Put(len, PutU32(gid));
      len := len + 4;
      Put(len, group);
      size := len + |group|;
    }

    method PutNoticeHead(code: Byte, user: Name)
      requires buffer.Length >= 514
      modifies buffer
      ensures buffer[..|user| + 2] == [code, |user|] + user
    {
      Put(0, [code]);
      Put(1, [|user|]);
      Put(2, user);
    }

    method Send(m: Message)
      modifies this`sent
      ensures sent == old(sent) + [m]
    {
      sent := sent + [m];
    }

    /** bst_for_each over bc_get_handle: the handle of a user, whatever the order of the walk. */
    method FindHandle(name: Name) returns (h: Handle?)
      requires Valid()
      ensures h == null ==> name !in model.groups
      ensures h != null ==> h in live && h.name == name
    {
      h := null;
      var todo := clients.Keys;
      while todo != {}
        invariant todo <= clients.Keys
        invariant h != null ==> h in live && h.name == name
        invariant h == null ==> forall c :: c in clients.Keys - todo ==> clients[c].name != name
        decreases todo
      {
        var c :| c in todo;
        if clients[c].name == name {
          h := clients[c];
        }
        todo := todo - {c};
      }
    }

    /** The table, read as the sessions of s in group gid. */
    ghost predicate TableShows(s: State, gid: Gid)
      reads this, live
    {
      && Members(s, gid) <= clients.Keys
      && forall c :: c in clients ==>
           && clients[c] in live
           && c in s.user && s.user[c] == clients[c].name
           && (c in Members(s, gid) <==> gid in clients[c].groups)
    }

    lemma ValidShows(gid: Gid)
      requires Valid()
      ensures TableShows(model, gid)
    {
    }

    /** bst_for_each over bc_notify. */
    method Notify(m: Message, gid: Gid, ghost s: State)
      requires TableShows(s, gid)
      modifies this`sent
      ensures old(sent) <= sent && Delivers(sent[|old(sent)|..], Members(s, gid), m)
    {
      ghost var members := Members(s, gid);
      hide Members, Lists;
      var todo := clients.Keys;
      ghost var order: seq<ClientId>, out: seq<Message> := [], [];
      NoneListed(members - todo);
      while todo != {}
        invariant todo <= clients.Keys
        invariant Lists(order, members - todo)
        invariant sent == old(sent) + out && IsDelivery(out, order, m)
        decreases todo
      {
        var c :| c in todo;
        WalkTurn(order, members, todo, c);
        if gid in clients[c].groups {
          Send(m.(client := c));
          order, out := order + [c], out + [m.(client := c)];
        }
        todo := todo - {c};
      }
      assert members - todo == members;
      assert sent[|old(sent)|..] == out;
    }

    /** The message bc_send_query_user and bc_send_query_group write: the buffer up to the end of the name. */
    method SendAnswer(r: Message, ghost code: Byte, ghost gid: Gid, name: Name)
      requires buffer.Length >= 514 && buffer[..5] == [code] + PutU32(gid)
      modifies this`sent, buffer
      ensures buffer[..5] == old(buffer[..5])
      ensures sent == old(sent) + [Message(CHANNEL_CTRL, r.channel, r.client, Answer(code, gid, name))]
    {
      Put(5, name);
      assert buffer[..5 + |name|] == Answer(code, gid, name);
      Send(Message(CHANNEL_CTRL, r.channel, r.client, buffer[..5 + |name|]));
    }

    /** bc_send_query_user for one node of the table. */
    method SendUser(h: Handle, r: Message, gid: Gid)
      requires buffer.Length >= 514 && buffer[..5] == [BC_QUERY_USER] + PutU32(gid)
      modifies this`sent, buffer
      ensures buffer[..5] == old(buffer[..5])
      ensures sent == old(sent) + if gid in h.groups then
                                    [Message(CHANNEL_CTRL, r.channel, r.client, Answer(BC_QUERY_USER, gid, h.name))]
                                  else []
    {
      if gid !in h.groups {
        return;
      }
      SendAnswer(r, BC_QUERY_USER, gid, h.name);
    }

    lemma UserAnswerExtends(out: seq<Message>, order: seq<ClientId>, s: State, r: Message, gid: Gid, c: ClientId)
      requires IsUserAnswer(out, order, s, r, gid)
      requires c in s.user
      ensures IsUserAnswer(out + [Message(CHANNEL_CTRL, r.channel, r.client, Answer(BC_QUERY_USER, gid, s.user[c]))],
                           order + [c], s, r, gid)
    {
    }

    /** bst_for_each over bc_send_query_user. */
    method WalkUsers(r: Message, gid: Gid, ghost s: State)
      requires TableShows(s, gid)
      requires buffer.Length >= 514 && buffer[..5] == [BC_QUERY_USER] + PutU32(gid)
      modifies this`sent, buffer
      ensures old(sent) <= sent && AnswersUsers(sent[|old(sent)|..], s, r, gid)
    {
      ghost var members := Members(s, gid);
      var todo := clients.Keys;
      ghost var order: seq<ClientId>, out: seq<Message> := [], [];
      NoneListed(members - todo);
      assert IsUserAnswer(out, order, s, r, gid);
      hide Members, IsUserAnswer, Lists, PutU32, Answer;
      while todo != {}
        invariant todo <= clients.Keys
        invariant buffer[..5] == [BC_QUERY_USER] + PutU32(gid)
        invariant Lists(order, members - todo)
        invariant sent == old(sent) + out && IsUserAnswer(out, order, s, r, gid)
        decreases todo
      {
        var c :| c in todo;
        WalkTurn(order, members, todo, c);
        SendUser(clients[c], r, gid);
        if c in members {
          UserAnswerExtends(out, order, s, r, gid, c);
          order, out := order + [c], out + [sent[|sent| - 1]];
        }
        todo := todo - {c};
      }
      assert members - todo == members;
      assert sent[|old(sent)|..] == out;
    }

    /** The answer to BC_QUERY_USER. */
    method SendUsers(r: Message, gid: Gid)
      requires Valid()
      modifies this`sent, buffer
      ensures old(sent) <= sent && AnswersUsers(sent[|old(sent)|..], model, r, gid)
    {
      ValidShows(gid);
      hide *;
      PutAnswerHead(BC_QUERY_USER, gid);
      WalkUsers(r, gid, model);
    }

    /** [code][gid], the head of every answer. */
    method PutAnswerHead(code: Byte, gid: Gid)
      requires buffer.Length >= 514
      modifies buffer
      ensures buffer[..5] == [code] + PutU32(gid)
    {
      Put(0, [code]);
      Put(1, PutU32(gid));
    }

    /** bst_for_each over bc_send_query_group. */
    method SendGroups(r: Message, groups: map<Gid, Name>)
      requires buffer.Length >= 514
      modifies this`sent, buffer
      ensures old(sent) <= sent && AnswersGroups(sent[|old(sent)|..], groups, r)
    {
      Put(0, [BC_QUERY_GROUP]);
      var todo := groups.Keys;
      ghost var order: seq<Gid>, out: seq<Message> := [], [];
      while todo != {}
        invariant todo <= groups.Keys
        invariant buffer[..1] == [BC_QUERY_GROUP]
        invariant Lists(order, groups.Keys - todo)
        invariant sent == old(sent) + out && IsGroupAnswer(out, order, groups, r)
        decreases todo
      {
        var g :| g in todo;
        Put(1, PutU32(g));
        assert buffer[..5] == [BC_QUERY_GROUP] + PutU32(g);
        SendAnswer(r, BC_QUERY_GROUP, g, groups[g]);
        assert buffer[..1] == buffer[..5][..1];
        WalkTurn(order, groups.Keys, todo, g);
        order, out, todo := order + [g], out + [sent[|sent| - 1]], todo - {g};
      }
      assert groups.Keys - todo == groups.Keys;
      assert sent[|old(sent)|..] == out;
    }

    // ----- CHANNEL_SUBSCRIBE

    method Subscribe(r: Message)
      requires Valid() && r.kind == CHANNEL_SUBSCRIBE
      modifies this, live
      ensures Valid() && sent == old(sent)
      ensures model == Next(hash, old(model), r)
      ensures old(live) <= live && fresh(live - old(live))
      ensures if |r.data| <= 254 && r.client !in old(clients) then
                && r.client in clients && clients == old(clients)[r.client := clients[r.client]]
                && clients[r.client].name == CString(r.data)
              else clients == old(clients)
    {
      hide WellFormed, Counted, AddSession;
      if |r.data| > 254 {
        return;
      }
      if r.client in clients {
        return;
      }
      var name: Name := CString(r.data);
      var h := FindHandle(name);
      if h != null {
        AddToShared(r.client, h);
      } else {
        AddWithNew(r.client, name);
      }
    }

    method AddToShared(c: ClientId, h: Handle)
      requires Valid() && c !in clients && h in live
      modifies this`clients, this`model, h`ref
      ensures Valid()
      ensures model == AddSession(old(model), c, h.name) && clients == old(clients)[c := h]
    {
      hide Valid, Counted, Shown, WellFormed, SessionsOf, AddSession;
      h.ref := h.ref + 1;
      clients := clients[c := h];
      model := AddSession(model, c, h.name);
      ValidWithSession(c, h);
    }

    method AddWithNew(c: ClientId, name: Name)
      requires Valid() && c !in clients && name !in model.groups
      modifies this`clients, this`model, this`live
      ensures Valid()
      ensures model == AddSession(old(model), c, name)
      ensures c in clients && fresh(clients[c]) && live == old(live) + {clients[c]}
      ensures clients == old(clients)[c := clients[c]] && clients[c].name == name
    {
      hide Valid, Counted, Shown, WellFormed, SessionsOf, AddSession;
      var h := new Handle(name);
      live := live + {h};
      clients := clients[c := h];
      model := AddSession(model, c, name);
      ValidWithSession(c, h);
    }

    twostate lemma ValidWithSession(c: ClientId, new h: Handle)
      requires old(Valid()) && OnlyTouches(h)
      requires c !in old(clients) && clients == old(clients)[c := h]
      requires live == old(live) + {h}
      requires if h in old(live) then h.ref == old(h.ref) + 1 && h.groups == old(h.groups)
               else h.ref == 1 && h.groups == map[] && h.name !in old(model).groups
      requires model == AddSession(old(model), c, h.name)
      ensures Valid()
    {
      assert c !in old(model).user;
      AddSessionWellFormed(hash, old(model), c, h.name);
      CountedWithSession(c, h);
      ShownWithSession(c, h);
      hide Counted, Shown, WellFormed;
    }

    /** Handles other than h are as before. */
    twostate predicate OnlyTouches(new h: Handle)
      reads this, live
    {
      forall k :: k in old(live) && k in live && k != h ==> k.ref == old(k.ref) && k.groups == old(k.groups)
    }

    twostate lemma CountedWithSession(c: ClientId, new h: Handle)
      requires old(Counted() && Shown()) && OnlyTouches(h)
      requires c !in old(clients) && clients == old(clients)[c := h]
      requires live == old(live) + {h}
      requires if h in old(live) then h.ref == old(h.ref) + 1 else h.ref == 1 && h.name !in old(model).groups
      ensures Counted()
    {
      SessionAdded(old(clients), c, h);
      if h !in old(live) {
        assert SessionsOf(old(clients), h) == {};
      }
      hide SessionsOf;
    }

    twostate lemma ShownWithSession(c: ClientId, new h: Handle)
      requires old(Shown()) && OnlyTouches(h)
      requires c !in old(clients) && clients == old(clients)[c := h]
      requires live == old(live) + {h}
      requires if h in old(live) then h.groups == old(h.groups) else h.groups == map[] && h.name !in old(model).groups
      requires model == AddSession(old(model), c, h.name)
      ensures Shown()
    {
    }

    // ----- CHANNEL_UNSUBSCRIBE

    /**
     bc_unsubscription for one group: completes the notice in the buffer with the group id and walks the table.
     `pairs` lists what was sent for the groups seen before.
    */
    method LeaveGroup(user: Name, gid: Gid, channel: U16,
                      ghost s: State, ghost seen: set<Gid>, ghost pairs: seq<(Gid, ClientId)>)
      returns (ghost order: seq<(Gid, ClientId)>)
      requires buffer.Length >= 514 && buffer[..|user| + 2] == [BC_UNSUBSCRIPTION, |user|] + user
      requires TableShows(s, gid)
      requires gid !in seen && Lists(pairs, Pairs(s, seen))
      modifies this`sent, buffer
      ensures buffer[..|user| + 2] == old(buffer[..|user| + 2])
      ensures Lists(order, Pairs(s, seen + {gid})) && pairs <= order
      ensures old(sent) <= sent && IsDeparture(sent[|old(sent)|..], order[|pairs|..], user, channel)
    {
      var len := |user| + 2;
      var m := Message(CHANNEL_CTRL, channel, 0, Notice(BC_UNSUBSCRIPTION, user, gid, []));
      Put(len, PutU32(gid));
      assert buffer[..len] == buffer[..len + 4][..len];
      assert buffer[..len + 4] == m.data;
      Notify(m.(data := buffer[..len + 4]), gid, s);
      ghost var out := sent[|old(sent)|..];
      ghost var cs: seq<ClientId> :| Lists(cs, Members(s, gid)) && IsDelivery(out, cs, m);
      order := PairsExtend(pairs, s, seen, gid, cs);
    }

    /** bst_for_each over bc_unsubscription. */
    method LeaveGroups(user: Name, groups: map<Gid, Name>, channel: U16, ghost s: State)
      requires buffer.Length >= 514 && buffer[..|user| + 2] == [BC_UNSUBSCRIPTION, |user|] + user
      requires forall g :: g in groups ==> TableShows(s, g)
      modifies this`sent, buffer
      ensures old(sent) <= sent && Departure(sent[|old(sent)|..], s, user, groups.Keys, channel)
    {
      hide PutU32, Notice, Members, Lists;
      var todo := groups.Keys;
      ghost var order: seq<(Gid, ClientId)>, out: seq<Message> := [], [];
      assert Pairs(s, groups.Keys - todo) == {};
      NoneListed(Pairs(s, groups.Keys - todo));
      while todo != {}
        invariant todo <= groups.Keys
        invariant buffer[..|user| + 2] == [BC_UNSUBSCRIPTION, |user|] + user
        invariant Lists(order, Pairs(s, groups.Keys - todo))
        invariant sent == old(sent) + out && IsDeparture(out, order, user, channel)
        decreases todo
      {
        var g :| g in todo;
        ghost var before := sent;
        ghost var wider := LeaveGroup(user, g, channel, s, groups.Keys - todo, order);
        assert groups.Keys - (todo - {g}) == groups.Keys - todo + {g};
        out := out + sent[|before|..];
        order := wider;
        todo := todo - {g};
      }
      assert groups.Keys - todo == groups.Keys;
      assert sent[|old(sent)|..] == out;
    }

    /** The reference count tells a user's last session. */
    lemma LastSessionByRef(c: ClientId)
      requires Valid() && c in clients
      ensures clients[c] in live && clients[c].ref == |SessionsOf(clients, clients[c])| >= 1
      ensures clients[c].ref == 1 <==> IsLastSession(model, c)
    {
      var all := SessionsOf(clients, clients[c]);
      assert c in all;
      if clients[c].ref == 1 {
        assert |all - {c}| == 0;
        forall d | d in model.user && d != c
          ensures model.user[d] != model.user[c]
        {
          assert d !in all - {c};
        }
      }
      if IsLastSession(model, c) {
        assert all == {c};
      }
    }

    twostate lemma CountedWithoutSession(c: ClientId)
      requires old(Counted()) && c in old(clients) && OnlyTouches(old(clients)[c])
      requires clients == old(clients) - {c}
      requires var h := old(clients)[c];
               && h.ref == old(h.ref) - 1
               && live == old(live) - (if h.ref <= 0 then {h} else {})
      ensures Counted()
    {
      var h := old(clients)[c];
      SessionRemoved(old(clients), c);
      if h.ref <= 0 {
        assert SessionsOf(clients, h) == {};
        forall d | d in clients
          ensures clients[d] != h
        {
          assert d !in SessionsOf(clients, h);
        }
      }
      hide SessionsOf;
    }

    twostate lemma ShownWithoutSession(c: ClientId)
      requires old(Counted() && Shown()) && c in old(clients) && OnlyTouches(old(clients)[c])
      requires clients == old(clients) - {c}
      requires var h := old(clients)[c];
               && h.groups == old(h.groups)
               && live == old(live) - (if IsLastSession(old(model), c) then {h} else {})
      requires model == DropSession(old(model), c)
      ensures Shown()
    {
    }

    /** What unsubscribe sends once the reference is given back. */
    method SayFarewell(c: ClientId, h: Handle, ghost s: State)
      requires buffer.Length >= 514
      requires c in s.user && s.user[c] == h.name && h.name in s.groups && s.groups[h.name] == h.groups
      requires h.ref <= 0 <==> IsLastSession(s, c)
      requires forall g :: g in h.groups ==> TableShows(s, g)
      modifies this`sent, buffer
      ensures old(sent) <= sent && Farewell(sent[|old(sent)|..], s, c)
    {
      var channel: U16 := *;
      ghost var out: seq<Message> := [];
      PutNoticeHead(BC_UNSUBSCRIPTION, h.name);
      if h.ref <= 0 {
        LeaveGroups(h.name, h.groups, channel, s);
        out := sent[|old(sent)|..];
      }
      Send(Message(CHANNEL_UNSUBSCRIBE, channel, c, []));
      ghost var all := sent[|old(sent)|..];
      assert all == out + [Message(CHANNEL_UNSUBSCRIBE, channel, c, [])];
      assert all[..|all| - 1] == out;
    }

    /** Giving a reference back hides nothing from the walks. */
    twostate lemma StillShows()
      requires old(Valid()) && clients == old(clients) && live == old(live)
      requires forall k :: k in live ==> k.groups == old(k.groups)
      ensures forall g :: TableShows(old(model), g)
    {
    }

    method Unsubscribe(r: Message)
      requires Valid() && r.kind == CHANNEL_UNSUBSCRIBE
      modifies this, live, buffer
      ensures Valid()
      ensures model == Next(hash, old(model), r)
      ensures old(sent) <= sent && Emits(hash, old(model), r, sent[|old(sent)|..])
      ensures var c, table := r.client, old(clients);
              live == old(live) - (if c in table && |SessionsOf(table, table[c])| == 1 then {table[c]} else {})
    {
      ghost var s := model;
      assert s.user.Keys == clients.Keys;
      if r.client in clients {
        LastSessionByRef(r.client);
        DropSessionWellFormed(hash, s, r.client);
        assert s.user[r.client] in s.groups;
        hide *;
        RemoveSession(r.client);
      }
      hide *;
      UnsubscribeStep(hash, s, r, sent[|old(sent)|..]);
    }

    method RemoveSession(c: ClientId)
      requires Valid() && c in clients && c in model.user && clients[c] in live && model.user[c] in model.groups
      requires clients[c].ref == 1 <==> IsLastSession(model, c)
      requires clients[c].ref >= 1
      requires WellFormed(hash, DropSession(model, c))
      modifies this`clients, this`live, this`model, this`sent, live, buffer
      ensures Valid()
      ensures model == DropSession(old(model), c)
      ensures old(sent) <= sent && Farewell(sent[|old(sent)|..], old(model), c)
      ensures live == old(live) - (if old(clients[c].ref) == 1 then {old(clients[c])} else {})
    {
      hide Counted, WellFormed, TableShows, Farewell;
      var h := clients[c];
      h.ref := h.ref - 1;
      StillShows();
      SayFarewell(c, h, model);
      if h.ref <= 0 {
        live := live - {h};
      }
      clients := clients - {c};
      model := DropSession(model, c);
      CountedWithoutSession(c);
      ShownWithoutSession(c);
    }

    // ----- CHANNEL_CTRL

    twostate lemma KeepsCount()
      requires old(Counted()) && clients == old(clients) && live == old(live)
      requires forall k :: k in live ==> k.ref == old(k.ref)
      ensures Counted()
    {
    }

    twostate lemma ShowsGroups(h: Handle)
      requires old(Counted() && Shown()) && h in live && OnlyTouches(h)
      requires clients == old(clients) && live == old(live)
      requires h.name in old(model).groups
      requires model == old(model).(groups := old(model).groups[h.name := h.groups])
      ensures Shown()
    {
    }

    method SetGroups(h: Handle, groups: map<Gid, Name>)
      requires Valid() && h in live && h.name in model.groups
      requires forall g :: g in groups ==> hash(groups[g]) == g
      modifies this`model, h`groups
      ensures Valid()
      ensures model == old(model).(groups := old(model).groups[h.name := groups])
    {
      hide Counted, Shown, WellFormed;
      SetGroupsWellFormed(hash, model, h.name, groups);
      h.groups := groups;
      model := model.(groups := model.groups[h.name := groups]);
      KeepsCount();
      ShowsGroups(h);
    }

    /** Builds a notice about user in the buffer and sends it to the sessions in the group. */
    method NotifyGroup(r: Message, code: Byte, user: Name, gid: Gid, group: Name)
      requires Valid()
      modifies this`sent, buffer
      ensures Valid()
      ensures old(sent) <= sent
      ensures Delivers(sent[|old(sent)|..], Members(model, gid),
                       Message(CHANNEL_CTRL, r.channel, 0, Notice(code, user, gid, group)))
    {
      hide *;
      ValidKept();
      var size := PutNotice(code, user, gid, group);
      ValidKept();
      ValidShows(gid);
      Notify(Message(CHANNEL_CTRL, r.channel, 0, buffer[..size]), gid, model);
      ValidKept();
    }

    /** What the handle of a session says about it. */
    lemma HandleOf(c: ClientId)
      requires Valid() && c in clients
      ensures WellFormed(hash, model) && c in model.user
      ensures var h := clients[c];
              && h in live && h.name == model.user[c] && h.name in model.groups && h.groups == model.groups[h.name]
              && forall g :: g in h.groups ==> hash(h.groups[g]) == g
    {
    }

    lemma AsksOf(r: Message, code: Byte)
      requires Valid() && IsCtrl(r) && r.client in clients && r.data[0] == code
      ensures Asks(model, r, code)
      ensures code == BC_SUBSCRIPTION ==> Admissible(r)
      ensures (code == BC_UNSUBSCRIPTION || code == BC_QUERY_USER) && Admissible(r) ==>
                |r.data| >= 5 && NamedGid(r) == GetU32(r.data[1..5])
    {
    }

    /** Adds a group to a handle unless it is there. */
    method EnterGroup(h: Handle, gid: Gid, name: Name)
      requires Valid() && h in live && h.name in model.groups && h.groups == model.groups[h.name]
      requires forall g :: g in h.groups ==> hash(h.groups[g]) == g
      requires hash(name) == gid
      modifies this`model, live
      ensures Valid()
      ensures model == AddGroup(old(model), h.name, gid, name)
    {
      hide Valid;
      var groups: map<Gid, Name> := h.groups;
      if gid !in groups {
        SetGroups(h, groups[gid := name]);
      }
    }

    /** Removes a group from a handle. */
    method ExitGroup(h: Handle, gid: Gid)
      requires Valid() && h in live && h.name in model.groups && h.groups == model.groups[h.name]
      requires forall g :: g in h.groups ==> hash(h.groups[g]) == g
      modifies this`model, live
      ensures Valid()
      ensures model == DropGroup(old(model), h.name, gid)
    {
      hide Valid;
      var groups: map<Gid, Name> := h.groups;
      SetGroups(h, groups - {gid});
    }

    /** BC_SUBSCRIPTION: join first, then tell everyone in the group, oneself included. */
    method Join(r: Message)
      requires Valid() && IsCtrl(r) && r.client in clients && r.data[0] == BC_SUBSCRIPTION
      modifies this`model, this`sent, live, buffer
      ensures Valid()
      ensures model == Next(hash, old(model), r)
      ensures old(sent) <= sent && Emits(hash, old(model), r, sent[|old(sent)|..])
    {
      hide *;
      HandleOf(r.client);
      AsksOf(r, BC_SUBSCRIPTION);
      ghost var s := model;
      var h := clients[r.client];
      var name := GroupName(r);
      var gid := hash(name);
      EnterGroup(h, gid, name);
      NotifyGroup(r, BC_SUBSCRIPTION, h.name, gid, name);
      JoinStep(hash, s, r, sent[|old(sent)|..]);
    }

    /** BC_UNSUBSCRIPTION: tell everyone in the group first, then leave. */
    method Leave(r: Message)
      requires Valid() && Admissible(r) && IsCtrl(r) && r.client in clients && r.data[0] == BC_UNSUBSCRIPTION
      modifies this`model, this`sent, live, buffer
      ensures Valid()
      ensures model == Next(hash, old(model), r)
      ensures old(sent) <= sent && Emits(hash, old(model), r, sent[|old(sent)|..])
    {
      hide *;
      HandleOf(r.client);
      AsksOf(r, BC_UNSUBSCRIPTION);
      var gid := GetU32(r.data[1..5]);
      ghost var s := model;
      var h := clients[r.client];
      NotifyGroup(r, BC_UNSUBSCRIPTION, h.name, gid, []);
      ExitGroup(h, gid);
      LeaveStep(hash, s, r, sent[|old(sent)|..]);
    }

    /** BC_QUERY_USER. */
    method QueryUsers(r: Message)
      requires Valid() && Admissible(r) && IsCtrl(r) && r.client in clients && r.data[0] == BC_QUERY_USER
      modifies this`sent, buffer
      ensures Valid()
      ensures model == Next(hash, old(model), r)
      ensures old(sent) <= sent && Emits(hash, old(model), r, sent[|old(sent)|..])
    {
      hide *;
      HandleOf(r.client);
      AsksOf(r, BC_QUERY_USER);
      var gid := GetU32(r.data[1..5]);
      if gid !in clients[r.client].groups {
        SomeError(r, r.channel);
      } else {
        SendUsers(r, gid);
      }
      ValidKept();
      QueryStep(hash, model, r, sent[|old(sent)|..]);
    }

    /** BC_QUERY_GROUP. */
    method QueryGroups(r: Message)
      requires Valid() && Admissible(r) && IsCtrl(r) && r.client in clients && r.data[0] == BC_QUERY_GROUP
      modifies this`sent, buffer
      ensures Valid()
      ensures model == Next(hash, old(model), r)
      ensures old(sent) <= sent && Emits(hash, old(model), r, sent[|old(sent)|..])
    {
      hide *;
      HandleOf(r.client);
      AsksOf(r, BC_QUERY_GROUP);
      ValidKept();
      SendGroups(r, clients[r.client].groups);
      ValidKept();
      QueryStep(hash, model, r, sent[|old(sent)|..]);
    }

    /** Sending and writing to the buffer touch neither table nor handles. */
    twostate lemma ValidKept()
      requires old(Valid())
      requires clients == old(clients) && live == old(live) && model == old(model)
      requires forall k :: k in live ==> k.ref == old(k.ref) && k.groups == old(k.groups)
      ensures Valid() && buffer.Length >= 514
    {
    }

    /** BC_ERROR with some text. */
    method SomeError(r: Message, channel: U16)
      modifies this`sent
      ensures old(sent) <= sent && IsError(sent[|old(sent)|..], r)
    {
      var text: Payload := *;
      Send(Message(CHANNEL_ERROR, channel, r.client, text));
    }

    method Control(r: Message)
      requires Valid() && Admissible(r) && r.kind == CHANNEL_CTRL
      modifies this`model, this`sent, live, buffer
      ensures Valid()
      ensures model == Next(hash, old(model), r)
      ensures old(sent) <= sent && Emits(hash, old(model), r, sent[|old(sent)|..])
    {
      ghost var s := model;
      assert s.user.Keys == clients.Keys;
      hide Counted, Shown, WellFormed, Next, Emits;
      if !(0 < |r.data| <= 255) || r.client !in clients {
        var channel: U16 := *;
        SomeError(r, channel);
        ErrorStep(hash, s, r, sent[|old(sent)|..]);
        return;
      }
      if r.data[0] == BC_SUBSCRIPTION {
        Join(r);
      } else if r.data[0] == BC_UNSUBSCRIPTION {
        Leave(r);
      } else if r.data[0] == BC_QUERY_USER {
        QueryUsers(r);
      } else if r.data[0] == BC_QUERY_GROUP {
        QueryGroups(r);
      } else {
        SomeError(r, r.channel);
        ErrorStep(hash, s, r, sent[|old(sent)|..]);
      }
    }

    // ----- CHANNEL_DATA

    method Data(r: Message)
      requires Valid() && Admissible(r) && r.kind == CHANNEL_DATA
      modifies this`sent
      ensures Valid()
      ensures model == Next(hash, old(model), r)
      ensures old(sent) <= sent && Emits(hash, old(model), r, sent[|old(sent)|..])
      ensures Delivers(sent[|old(sent)|..], Members(model, GetU32(r.data[0..4])), r)
    {
      var gid := GetU32(r.data[0..4]);
      ValidShows(gid);
      hide Valid, WellFormed, TableShows, Members, Delivers;
      Notify(r, gid, model);
      ValidKept();
    }

    // ----- The loop of main

    /** One message of the channel: the handles behave as the plain relation, with the same output. */
    method Process(r: Message)
      requires Valid() && Admissible(r)
      modifies this, live, buffer
      ensures Valid()
      ensures model == Next(hash, old(model), r)
      ensures old(sent) <= sent && Emits(hash, old(model), r, sent[|old(sent)|..])
      ensures fresh(live - old(live))
      ensures old(live) - live == if r.kind == CHANNEL_UNSUBSCRIBE && r.client in old(clients)
                                     && |SessionsOf(old(clients), old(clients)[r.client])| == 1
                                  then {old(clients)[r.client]} else {}
    {
      hide Counted, Shown, WellFormed, SessionsOf;
      if r.kind == CHANNEL_SUBSCRIBE {
        Subscribe(r);
      } else if r.kind == CHANNEL_CTRL {
        Control(r);
      } else if r.kind == CHANNEL_DATA {
        Data(r);
      } else if r.kind == CHANNEL_UNSUBSCRIBE {
        OwnHandle(r.client);
        Unsubscribe(r);
      }
    }

    lemma OwnHandle(c: ClientId)
      requires Valid()
      ensures c in clients ==> clients[c] in live
    {
    }

    /** The message loop of main, for any sequence of messages received. */
    method Serve(reqs: seq<Message>) returns (ghost outs: seq<seq<Message>>)
      requires Valid()
      requires forall r :: r in reqs ==> Admissible(r)
      modifies this, live, buffer
      ensures Valid()
      ensures IsRun(hash, old(model), reqs, outs)
      ensures model == After(hash, old(model), reqs)
      ensures sent == old(sent) + Flatten(outs)
    {
      hide *;
      outs := [];
      ghost var s := model;
      ghost var born: set<Handle> := {};
      RunStart(hash, s, reqs);
      for i := 0 to |reqs|
        invariant Valid()
        invariant live <= old(live) + born && fresh(born)
        invariant IsRun(hash, s, reqs[..i], outs)
        invariant model == After(hash, s, reqs[..i])
        invariant sent == old(sent) + Flatten(outs)
      {
        assert reqs[i] in reqs;
        ghost var before, mid := sent, live;
        Process(reqs[i]);
        born := born + (live - mid);
        ghost var out := sent[|before|..];
        RunExtend(hash, s, reqs[..i], outs, reqs[i], out);
        assert reqs[..i + 1] == reqs[..i] + [reqs[i]];
        outs := outs + [out];
      }
    }

    lemma RunStart(h: Hash, s: State, reqs: seq<Message>)
      requires Valid() && h == hash && s == model
      ensures WellFormed(h, s) && IsRun(h, s, reqs[..0], []) && After(h, s, reqs[..0]) == s && Flatten([]) == []
      ensures reqs[..|reqs|] == reqs
    {
    }
  }
}

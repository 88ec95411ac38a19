/** What the sessions of the broadcast channel can rely on, as consequences of the plain relation. */
module BroadcastProperties {
  import opened Bytes
  import opened TunnelCodec
  import opened Delivery
  import opened NoticeCodec
  import opened BroadcastModel

  // ----- A session's own view of a group

  /** How one received message changes what a session believes the roster of group g to be. */
  function Apply(g: Gid, view: set<seq<Byte>>, m: Message): set<seq<Byte>> {
    if m.kind != CHANNEL_CTRL then view
    else
      match Decode(m.data)
      case Joined(user, gid, _) => if gid == g then view + {user} else view
      case Left(user, gid, _) => if gid == g then view - {user} else view
      case HasUser(gid, user) => if gid == g then view + {user} else view
      case HasGroup(_, _) => view
      case Unreadable => view
  }

  /** Session c folds in, one after the other, the messages that are addressed to it. */
  function Replay(c: ClientId, g: Gid, view: set<seq<Byte>>, ms: seq<Message>): set<seq<Byte>>
    decreases |ms|
  {
    if ms == [] then view
    else
      var n := |ms| - 1;
      var before := Replay(c, g, view, ms[..n]);
      if ms[n].client == c then Apply(g, before, ms[n]) else before
  }

  lemma {:induction false} ReplayConcat(c: ClientId, g: Gid, view: set<seq<Byte>>, ms: seq<Message>, ns: seq<Message>)
    ensures Replay(c, g, view, ms + ns) == Replay(c, g, Replay(c, g, view, ms), ns)
    decreases |ns|
  {
    if ns == [] {
      assert ms + ns == ms;
    } else {
      var n := |ns| - 1;
      ReplayConcat(c, g, view, ms, ns[..n]);
      assert (ms + ns)[..|ms + ns| - 1] == ms + ns[..n];
    }
  }

  /** A delivery reaches c once if c is addressed, and not at all otherwise. */
  lemma {:induction false} ReplayDelivery(c: ClientId, g: Gid, view: set<seq<Byte>>, out: seq<Message>,
                                          order: seq<ClientId>, m: Message)
    requires IsDelivery(out, order, m)
    requires forall i, j :: 0 <= i < j < |order| ==> order[i] != order[j]
    ensures Replay(c, g, view, out) == if c in order then Apply(g, view, m) else view
    decreases |out|
  {
    if out != [] {
      var n := |out| - 1;
      ReplayDelivery(c, g, view, out[..n], order[..n], m);
      assert order == order[..n] + [order[n]];
    }
  }

  ghost function UsersOf(s: State, order: seq<ClientId>): set<Name>
    requires forall d :: d in order ==> d in s.user
  {
    set d | d in order :: s.user[d]
  }

  lemma UsersOfExtend(s: State, order: seq<ClientId>)
    requires order != []
    requires forall d :: d in order ==> d in s.user
    ensures var n := |order| - 1; UsersOf(s, order) == UsersOf(s, order[..n]) + {s.user[order[n]]}
  {
    var n := |order| - 1;
    assert order == order[..n] + [order[n]];
  }

  lemma {:induction false} ReplayUsers(c: ClientId, g: Gid, view: set<seq<Byte>>, out: seq<Message>,
                                       order: seq<ClientId>, s: State, r: Message, asked: Gid)
    requires IsUserAnswer(out, order, s, r, asked)
    requires forall d :: d in order ==> d in s.user
    ensures Replay(c, g, view, out) ==
            if c == r.client && asked == g then view + UsersOf(s, order) else view
    decreases |out|
  {
    if out != [] {
      var n := |out| - 1;
      hide Decode, Answer, UsersOf;
      UsersOfExtend(s, order);
      ReplayUsers(c, g, view, out[..n], order[..n], s, r, asked);
      AnswerRoundTrip(asked, s.user[order[n]]);
    }
  }

  lemma {:induction false} ReplayGroups(c: ClientId, g: Gid, view: set<seq<Byte>>, out: seq<Message>, order: seq<Gid>,
                                        groups: map<Gid, Name>, r: Message)
    requires IsGroupAnswer(out, order, groups, r)
    ensures Replay(c, g, view, out) == view
    decreases |out|
  {
    if out != [] {
      var n := |out| - 1;
      ReplayGroups(c, g, view, out[..n], order[..n], groups, r);
      AnswerRoundTrip(order[n], groups[order[n]]);
    }
  }

  lemma {:induction false} ReplayDeparture(c: ClientId, g: Gid, view: set<seq<Byte>>, out: seq<Message>,
                                           order: seq<(Gid, ClientId)>, u: Name, channel: U16)
    requires IsDeparture(out, order, u, channel)
    ensures Replay(c, g, view, out) == if (g, c) in order then view - {u} else view
    decreases |out|
  {
    if out != [] {
      var n := |out| - 1;
      hide Decode, Notice;
      ReplayDeparture(c, g, view, out[..n], order[..n], u, channel);
      NoticeRoundTrip(u, order[n].0, []);
      assert order == order[..n] + [order[n]];
    }
  }

  /** The users in a group are the users of its member sessions. */
  lemma RosterOfMembers(h: Hash, s: State, g: Gid)
    requires WellFormed(h, s)
    ensures Roster(s, g) == set d | d in Members(s, g) :: s.user[d]
  {
    forall u | u in Roster(s, g)
      ensures exists d :: d in Members(s, g) && s.user[d] == u
    {
      var d :| d in s.user && s.user[d] == u;
      assert d in Members(s, g);
    }
  }

  // ----- One request

  /** Asking for the users of one's group makes the view exact, whatever part of the roster was known before. */
  lemma QueryGivesRoster(h: Hash, s: State, r: Message, out: seq<Message>, g: Gid, view: set<seq<Byte>>)
    requires WellFormed(h, s) && Admissible(r) && Emits(h, s, r, out)
    requires Asks(s, r, BC_QUERY_USER) && NamedGid(r) == g && r.client in Members(s, g)
    requires view <= Roster(s, g)
    ensures Replay(r.client, g, view, out) == Roster(s, g)
  {
    QueryStep(h, s, r, out);
    assert AnswersUsers(out, s, r, g);
    hide Emits, WellFormed, Roster, UsersOf;
    var order :| Lists(order, Members(s, g)) && IsUserAnswer(out, order, s, r, g);
    ReplayUsers(r.client, g, view, out, order, s, r, g);
    UsersOfMembers(h, s, order, g);
  }

  lemma UsersOfMembers(h: Hash, s: State, order: seq<ClientId>, g: Gid)
    requires WellFormed(h, s) && Lists(order, Members(s, g))
    ensures forall d :: d in order ==> d in s.user
    ensures UsersOf(s, order) == Roster(s, g)
  {
    RosterOfMembers(h, s, g);
    assert UsersOf(s, order) == (set d | d in Members(s, g) :: s.user[d]);
  }

  lemma AddGroupRoster(s: State, u: Name, gid: Gid, n: Name, g: Gid)
    requires u in s.groups
    ensures Roster(AddGroup(s, u, gid, n), g) == if g == gid then Roster(s, g) + {u} else Roster(s, g)
  {
  }

  lemma DropGroupRoster(s: State, u: Name, gid: Gid, g: Gid)
    requires u in s.groups
    ensures Roster(DropGroup(s, u, gid), g) == if g == gid then Roster(s, g) - {u} else Roster(s, g)
  {
  }

  lemma JoinKeepsView(h: Hash, s: State, r: Message, out: seq<Message>, c: ClientId, g: Gid)
    requires WellFormed(h, s) && Asks(s, r, BC_SUBSCRIPTION) && Emits(h, s, r, out)
    requires c in Members(Next(h, s, r), g)
    ensures Replay(c, g, Roster(s, g), out) == Roster(Next(h, s, r), g)
  {
    var u, n, t := s.user[r.client], GroupName(r), Next(h, s, r);
    JoinStep(h, s, r, out);
    AddGroupRoster(s, u, h(n), n, g);
    hide Emits, Decode, Notice, WellFormed, Roster, AddGroup;
    var m := Message(CHANNEL_CTRL, r.channel, 0, Notice(BC_SUBSCRIPTION, u, h(n), n));
    var order :| Lists(order, Members(t, h(n))) && IsDelivery(out, order, m);
    ReplayDelivery(c, g, Roster(s, g), out, order, m);
    NoticeRoundTrip(u, h(n), n);
  }

  lemma LeaveKeepsView(h: Hash, s: State, r: Message, out: seq<Message>, c: ClientId, g: Gid)
    requires WellFormed(h, s) && Asks(s, r, BC_UNSUBSCRIPTION) && Admissible(r) && Emits(h, s, r, out)
    requires c in Members(s, g)
    ensures Replay(c, g, Roster(s, g), out) == Roster(Next(h, s, r), g)
  {
    var u, gid, t := s.user[r.client], NamedGid(r), Next(h, s, r);
    LeaveStep(h, s, r, out);
    DropGroupRoster(s, u, gid, g);
    hide Emits, Decode, Notice, WellFormed, Roster, DropGroup;
    var m := Message(CHANNEL_CTRL, r.channel, 0, Notice(BC_UNSUBSCRIPTION, u, gid, []));
    var order :| Lists(order, Members(s, gid)) && IsDelivery(out, order, m);
    ReplayDelivery(c, g, Roster(s, g), out, order, m);
    NoticeRoundTrip(u, gid, []);
  }

  lemma QueryKeepsView(h: Hash, s: State, r: Message, out: seq<Message>, c: ClientId, g: Gid)
    requires WellFormed(h, s) && Admissible(r) && Emits(h, s, r, out)
    requires Asks(s, r, BC_QUERY_USER) || Asks(s, r, BC_QUERY_GROUP)
    ensures Next(h, s, r) == s && Replay(c, g, Roster(s, g), out) == Roster(s, g)
  {
    QueryStep(h, s, r, out);
    var groups := s.groups[s.user[r.client]];
    if r.data[0] == BC_QUERY_GROUP {
      var order :| Lists(order, groups.Keys) && IsGroupAnswer(out, order, groups, r);
      ReplayGroups(c, g, Roster(s, g), out, order, groups, r);
    } else if NamedGid(r) in groups {
      var asked := NamedGid(r);
      var order :| Lists(order, Members(s, asked)) && IsUserAnswer(out, order, s, r, asked);
      ReplayUsers(c, g, Roster(s, g), out, order, s, r, asked);
      RosterOfMembers(h, s, asked);
    } else {
      ReplaySilent(c, g, Roster(s, g), out);
    }
  }

  /** Messages of other types than CTRL do not touch the view. */
  lemma {:induction false} ReplaySilent(c: ClientId, g: Gid, view: set<seq<Byte>>, out: seq<Message>)
    requires forall i :: 0 <= i < |out| ==> out[i].kind != CHANNEL_CTRL
    ensures Replay(c, g, view, out) == view
    decreases |out|
  {
    if out != [] {
      ReplaySilent(c, g, view, out[..|out| - 1]);
    }
  }

  lemma DropSessionRoster(h: Hash, s: State, c: ClientId, g: Gid)
    requires WellFormed(h, s) && c in s.user
    ensures var u := s.user[c];
            && Roster(DropSession(s, c), g) == (if IsLastSession(s, c) then Roster(s, g) - {u} else Roster(s, g))
            && (u in Roster(s, g) <==> g in s.groups[u])
  {
  }

  lemma DisconnectKeepsView(h: Hash, s: State, r: Message, out: seq<Message>, c: ClientId, g: Gid)
    requires WellFormed(h, s) && r.kind == CHANNEL_UNSUBSCRIBE && r.client in s.user && Emits(h, s, r, out)
    requires c in Members(s, g) && c in Members(Next(h, s, r), g)
    ensures Replay(c, g, Roster(s, g), out) == Roster(Next(h, s, r), g)
  {
    UnsubscribeStep(h, s, r, out);
    var u, n := s.user[r.client], |out| - 1;
    var gids := s.groups[u].Keys;
    DropSessionRoster(h, s, r.client, g);
    assert out == out[..n] + [out[n]];
    if IsLastSession(s, r.client) {
      assert Departure(out[..n], s, u, gids, out[n].channel);
      hide Emits, WellFormed, Roster, DropSession, Next, IsLastSession;
      var order :| Lists(order, Pairs(s, gids)) && IsDeparture(out[..n], order, u, out[n].channel);
      ReplayDeparture(c, g, Roster(s, g), out[..n], order, u, out[n].channel);
      assert (g, c) in Pairs(s, gids) <==> g in gids;
    } else {
      assert out[..n] == [];
    }
  }

  /** Whatever happens, a view that was exact stays exact for a session that stays in the group. */
  lemma StepKeepsView(h: Hash, s: State, r: Message, out: seq<Message>, c: ClientId, g: Gid)
    requires WellFormed(h, s) && Admissible(r) && Emits(h, s, r, out)
    requires c in Members(s, g) && c in Members(Next(h, s, r), g)
    ensures Replay(c, g, Roster(s, g), out) == Roster(Next(h, s, r), g)
  {
    if Asks(s, r, BC_SUBSCRIPTION) {
      JoinKeepsView(h, s, r, out, c, g);
    } else if Asks(s, r, BC_UNSUBSCRIPTION) {
      LeaveKeepsView(h, s, r, out, c, g);
    } else if Asks(s, r, BC_QUERY_USER) || Asks(s, r, BC_QUERY_GROUP) {
      QueryKeepsView(h, s, r, out, c, g);
    } else if r.kind == CHANNEL_UNSUBSCRIBE && r.client in s.user {
      DisconnectKeepsView(h, s, r, out, c, g);
    } else {
      OthersKeepRoster(h, s, r, out, g);
      ReplaySilent(c, g, Roster(s, g), out);
    }
  }

  /** Subscriptions, data messages, errors and unknown messages send no control messages and change no roster. */
  lemma OthersKeepRoster(h: Hash, s: State, r: Message, out: seq<Message>, g: Gid)
    requires WellFormed(h, s) && Admissible(r) && Emits(h, s, r, out)
    requires r.kind == CHANNEL_UNSUBSCRIBE ==> r.client !in s.user
    requires !Asks(s, r, BC_SUBSCRIPTION) && !Asks(s, r, BC_UNSUBSCRIPTION)
    requires !Asks(s, r, BC_QUERY_USER) && !Asks(s, r, BC_QUERY_GROUP)
    ensures Roster(Next(h, s, r), g) == Roster(s, g)
    ensures forall i :: 0 <= i < |out| ==> out[i].kind != CHANNEL_CTRL
  {
    if r.kind == CHANNEL_DATA {
      var order :| Lists(order, Members(s, NamedGid(r))) && IsDelivery(out, order, r);
    }
  }

  // ----- Whole runs

  /** c is connected and its user is in g, before the first request and after each. */
  ghost predicate StaysIn(h: Hash, s: State, reqs: seq<Message>, c: ClientId, g: Gid)
    requires WellFormed(h, s)
    requires forall r :: r in reqs ==> Admissible(r)
    decreases |reqs|
  {
    && c in Members(After(h, s, reqs), g)
    && (reqs != [] ==> StaysIn(h, s, reqs[..|reqs| - 1], c, g))
  }

  lemma {:induction false} RunKeepsView(h: Hash, s: State, reqs: seq<Message>, outs: seq<seq<Message>>,
                                        c: ClientId, g: Gid)
    requires WellFormed(h, s) && IsRun(h, s, reqs, outs) && StaysIn(h, s, reqs, c, g)
    ensures Replay(c, g, Roster(s, g), Flatten(outs)) == Roster(After(h, s, reqs), g)
    decreases |reqs|
  {
    if reqs != [] {
      hide Emits, WellFormed, Members, Roster, Next, Replay;
      var n := |reqs| - 1;
      assert StaysIn(h, s, reqs[..n], c, g);
      RunKeepsView(h, s, reqs[..n], outs[..n], c, g);
      StepKeepsView(h, After(h, s, reqs[..n]), reqs[n], outs[n], c, g);
      ReplayConcat(c, g, Roster(s, g), Flatten(outs[..n]), outs[n]);
    } else {
      assert Flatten(outs) == [];
    }
  }

  lemma {:induction false} StaysInFromStart(h: Hash, s: State, reqs: seq<Message>, c: ClientId, g: Gid)
    requires WellFormed(h, s) && (forall r :: r in reqs ==> Admissible(r)) && StaysIn(h, s, reqs, c, g)
    ensures c in Members(s, g)
    decreases |reqs|
  {
    if reqs != [] {
      StaysInFromStart(h, s, reqs[..|reqs| - 1], c, g);
    }
  }

  /**
   Roster replay. In any state a server can be in, a session asks for the users of its group g, starting from an
   empty view. From then on, after every sequence of requests during which it stays connected and its user in g,
   folding in what it received gives exactly the set of users in g.
  */
  lemma RosterReplay(h: Hash, s: State, query: Message, answer: seq<Message>,
                     reqs: seq<Message>, outs: seq<seq<Message>>, g: Gid)
    requires WellFormed(h, s) && Admissible(query)
    requires Asks(s, query, BC_QUERY_USER) && NamedGid(query) == g && Emits(h, s, query, answer)
    requires IsRun(h, s, reqs, outs) && StaysIn(h, s, reqs, query.client, g)
    ensures Replay(query.client, g, {}, answer + Flatten(outs)) == Roster(After(h, s, reqs), g)
  {
    assert forall r :: r in reqs ==> Admissible(r);
    hide *;
    StaysInFromStart(h, s, reqs, query.client, g);
    QueryGivesRoster(h, s, query, answer, g, {});
    RunKeepsView(h, s, reqs, outs, query.client, g);
    ReplayConcat(query.client, g, {}, answer, Flatten(outs));
  }

  // ----- Who receives what, counted

  lemma {:induction false} ListsCount<T>(order: seq<T>, all: set<T>)
    requires Lists(order, all)
    ensures |order| == |all|
    decreases |order|
  {
    if order == [] {
      assert all == {};
    } else {
      var n := |order| - 1;
      var x := order[n];
      assert order == order[..n] + [x];
      ListsCount(order[..n], all - {x});
    }
  }

  /**
   A data message reaches each session whose user is in the group that the payload starts with once, with its client
   id, and nobody else.
  */
  lemma DataDelivery(h: Hash, s: State, r: Message, out: seq<Message>, g: Gid)
    requires WellFormed(h, s) && Admissible(r) && r.kind == CHANNEL_DATA && Emits(h, s, r, out)
    requires r.data[0..4] == PutU32(g)
    ensures Next(h, s, r) == s
    ensures |out| == |Members(s, g)|
    ensures forall d :: Times(r.(client := d), out) == if d in Members(s, g) then 1 else 0
  {
    U32RoundTrip(g, r.data[0..4]);
    var order :| Lists(order, Members(s, g)) && IsDelivery(out, order, r);
    ListsCount(order, Members(s, g));
    forall d: ClientId
      ensures Times(r.(client := d), out) == if d in Members(s, g) then 1 else 0
    {
      DeliveryTimes(out, order, r, d);
    }
  }

  lemma LeaveNoticeInjective(u: Name, g: Gid, d: ClientId, g': Gid, d': ClientId, channel: U16)
    ensures LeaveNotice(u, g, d, channel) == LeaveNotice(u, g', d', channel) <==> g == g' && d == d'
  {
    NoticeRoundTrip(u, g, []);
    NoticeRoundTrip(u, g', []);
  }

  lemma {:induction false} DepartureTimes(out: seq<Message>, order: seq<(Gid, ClientId)>, u: Name, channel: U16,
                                          g: Gid, d: ClientId)
    requires IsDeparture(out, order, u, channel)
    requires forall i, j :: 0 <= i < j < |order| ==> order[i] != order[j]
    ensures Times(LeaveNotice(u, g, d, channel), out) == if (g, d) in order then 1 else 0
    decreases |out|
  {
    if out != [] {
      var n := |out| - 1;
      hide LeaveNotice, Times;
      TimesExtend(LeaveNotice(u, g, d, channel), out);
      DepartureTimes(out[..n], order[..n], u, channel, g, d);
      LeaveNoticeInjective(u, g, d, order[n].0, order[n].1, channel);
      assert order == order[..n] + [order[n]];
    }
  }

  /**
   The last session of user u disconnects: one leave notice for each pair of a group of u and a session in that
   group, the departing session included, then one UNSUBSCRIBE; u is gone and the other users keep their groups.
  */
  lemma LastSessionDeparture(h: Hash, s: State, r: Message, out: seq<Message>)
    requires WellFormed(h, s) && r.kind == CHANNEL_UNSUBSCRIBE && Emits(h, s, r, out)
    requires r.client in s.user && IsLastSession(s, r.client)
    ensures var u, n, t := s.user[r.client], |out| - 1, Next(h, s, r);
            && n == |Pairs(s, s.groups[u].Keys)|
            && out[n] == Message(CHANNEL_UNSUBSCRIBE, out[n].channel, r.client, [])
            && (forall g, d :: Times(LeaveNotice(u, g, d, out[n].channel), out[..n])
                               == if g in s.groups[u] && d in Members(s, g) then 1 else 0)
            && (forall g :: g in s.groups[u] ==> r.client in Members(s, g))
            && t.groups == s.groups - {u} && u !in t.user.Values
  {
    UnsubscribeStep(h, s, r, out);
    var u, n := s.user[r.client], |out| - 1;
    var channel := out[n].channel;
    var gids := s.groups[u].Keys;
    var order :| Lists(order, Pairs(s, gids)) && IsDeparture(out[..n], order, u, channel);
    ListsCount(order, Pairs(s, gids));
    forall g: Gid, d: ClientId
      ensures Times(LeaveNotice(u, g, d, channel), out[..n]) == if g in s.groups[u] && d in Members(s, g) then 1 else 0
    {
      DepartureTimes(out[..n], order, u, channel, g, d);
      assert (g, d) in order <==> (g, d) in Pairs(s, gids);
    }
  }

  /** Sessions come and go without changing any group, as long as the user keeps one. */
  lemma SharedMembership(h: Hash, s: State, r: Message, out: seq<Message>, g: Gid)
    requires WellFormed(h, s) && Admissible(r) && Emits(h, s, r, out)
    requires || r.kind == CHANNEL_SUBSCRIBE
             || (r.kind == CHANNEL_UNSUBSCRIBE && r.client in s.user && !IsLastSession(s, r.client))
    ensures Roster(Next(h, s, r), g) == Roster(s, g)
    ensures Members(Next(h, s, r), g) - {r.client} == Members(s, g) - {r.client}
    ensures r.kind == CHANNEL_SUBSCRIBE ==> out == []
    ensures r.kind == CHANNEL_UNSUBSCRIBE ==>
              |out| == 1 && out[0] == Message(CHANNEL_UNSUBSCRIBE, out[0].channel, r.client, [])
  {
  }

  /** A session that connects and disconnects again leaves nothing behind. */
  lemma SubscribeUndone(h: Hash, s: State, join: Message, leave: Message)
    requires WellFormed(h, s)
    requires join.kind == CHANNEL_SUBSCRIBE && |join.data| <= 254 && join.client !in s.user
    requires leave.kind == CHANNEL_UNSUBSCRIBE && leave.client == join.client
    ensures var t := Next(h, s, join); WellFormed(h, t) && Next(h, t, leave) == s
  {
    var c, u := join.client, CString(join.data);
    NextWellFormed(h, s, join);
    var t := Next(h, s, join);
    assert t.user - {c} == s.user;
    if u in s.groups {
      var d :| d in s.user && s.user[d] == u;
      assert d in t.user && d != c && t.user[d] == u;
      assert !IsLastSession(t, c);
    } else {
      forall d | d in t.user && d != c
        ensures t.user[d] != u
      {
        assert s.user[d] in s.groups;
      }
      assert t.groups - {u} == s.groups;
    }
  }

  /** Leaving undoes a join, and only a join that added something. */
  lemma LeaveUndoesJoin(h: Hash, s: State, join: Message, leave: Message)
    requires WellFormed(h, s) && Admissible(leave)
    requires Asks(s, join, BC_SUBSCRIPTION) && IsCtrl(leave) && leave.data[0] == BC_UNSUBSCRIPTION
    requires leave.client == join.client && NamedGid(leave) == h(GroupName(join))
    ensures var t := Next(h, s, join);
            && WellFormed(h, t)
            && (Next(h, t, leave) == s <==> NamedGid(leave) !in s.groups[s.user[join.client]])
  {
    NextWellFormed(h, s, join);
    var u, g, t := s.user[join.client], NamedGid(leave), Next(h, s, join);
    JoinStep(h, s, join, []);
    LeaveStep(h, t, leave, []);
    if g !in s.groups[u] {
      assert t.groups[u] - {g} == s.groups[u];
      assert DropGroup(t, u, g).groups == s.groups;
    } else {
      assert g !in DropGroup(t, u, g).groups[u];
    }
  }

  /** A group query lists each group of the user once, under the name whose hash it is. */
  lemma GroupQuerySound(h: Hash, s: State, r: Message, out: seq<Message>)
    requires WellFormed(h, s) && Admissible(r) && Asks(s, r, BC_QUERY_GROUP) && Emits(h, s, r, out)
    ensures var groups := s.groups[s.user[r.client]];
            && |out| == |groups|
            && (forall g :: g in groups ==>
                  && h(groups[g]) == g
                  && Times(Message(CHANNEL_CTRL, r.channel, r.client, Answer(BC_QUERY_GROUP, g, groups[g])), out) == 1)
  {
    QueryStep(h, s, r, out);
    var groups := s.groups[s.user[r.client]];
    var order :| Lists(order, groups.Keys) && IsGroupAnswer(out, order, groups, r);
    ListsCount(order, groups.Keys);
    forall g | g in groups
      ensures Times(Message(CHANNEL_CTRL, r.channel, r.client, Answer(BC_QUERY_GROUP, g, groups[g])), out) == 1
    {
      GroupAnswerTimes(out, order, groups, r, g);
    }
  }

  lemma {:induction false} GroupAnswerTimes(out: seq<Message>, order: seq<Gid>, groups: map<Gid, Name>,
                                            r: Message, g: Gid)
    requires IsGroupAnswer(out, order, groups, r) && g in groups
    requires forall i, j :: 0 <= i < j < |order| ==> order[i] != order[j]
    ensures Times(Message(CHANNEL_CTRL, r.channel, r.client, Answer(BC_QUERY_GROUP, g, groups[g])), out)
            == if g in order then 1 else 0
    decreases |out|
  {
    if out != [] {
      var n := |out| - 1;
      hide Decode, Answer, Times;
      TimesExtend(Message(CHANNEL_CTRL, r.channel, r.client, Answer(BC_QUERY_GROUP, g, groups[g])), out);
      GroupAnswerTimes(out[..n], order[..n], groups, r, g);
      AnswerRoundTrip(g, groups[g]);
      AnswerRoundTrip(order[n], groups[order[n]]);
      assert order == order[..n] + [order[n]];
    }
  }

  lemma UserAnswersRead(out: seq<Message>, order: seq<ClientId>, s: State, r: Message, g: Gid)
    requires IsUserAnswer(out, order, s, r, g)
    ensures forall i :: 0 <= i < |out| ==>
              out[i].client == r.client && Decode(out[i].data) == HasUser(g, s.user[order[i]])
  {
    hide Answer, Decode;
    forall i | 0 <= i < |out|
      ensures Decode(out[i].data) == HasUser(g, s.user[order[i]])
    {
      AnswerRoundTrip(g, s.user[order[i]]);
    }
  }

  /** A user query by a member has one answer per member session, to the requester, and the names are the roster. */
  lemma UserQuerySound(h: Hash, s: State, r: Message, out: seq<Message>)
    requires WellFormed(h, s) && Admissible(r) && Asks(s, r, BC_QUERY_USER) && Emits(h, s, r, out)
    requires r.client in Members(s, NamedGid(r))
    ensures |out| == |Members(s, NamedGid(r))|
    ensures forall i :: 0 <= i < |out| ==> out[i].client == r.client && Decode(out[i].data).HasUser?
    ensures (set i | 0 <= i < |out| :: Decode(out[i].data).user) == Roster(s, NamedGid(r))
  {
    QueryStep(h, s, r, out);
    var g := NamedGid(r);
    var order :| Lists(order, Members(s, g)) && IsUserAnswer(out, order, s, r, g);
    ListsCount(order, Members(s, g));
    RosterOfMembers(h, s, g);
    UserAnswersRead(out, order, s, r, g);
    hide WellFormed, Emits, Next, Roster, IsUserAnswer, Answer, Decode, Members;
    var names := set i | 0 <= i < |out| :: Decode(out[i].data).user;
    forall u | u in Roster(s, g)
      ensures u in names
    {
      var d :| d in Members(s, g) && s.user[d] == u;
      var i :| 0 <= i < |order| && order[i] == d;
      assert Decode(out[i].data).user == u;
    }
  }
}

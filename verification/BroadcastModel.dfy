/**
 The broadcast channel as a plain relation: which user a session belongs to, and which groups a user is in.
 Module BroadcastServer proves that the shared, reference-counted handles behave like this.
*/
module BroadcastModel {
  import opened Bytes
  import opened TunnelCodec
  import opened Delivery
  import opened NoticeCodec

  /** simple_hash of the group name; not part of this model beyond being a function. */
  type Hash = Name -> Gid

  /** A user exists as long as it has a session; each of its groups is stored as gid -> group name. */
  datatype State = State(user: map<ClientId, Name>, groups: map<Name, map<Gid, Name>>)

  const INITIAL: State := State(map[], map[])

  ghost predicate WellFormed(h: Hash, s: State) {
    && (forall c :: c in s.user ==> s.user[c] in s.groups)
    && (forall u :: u in s.groups ==> exists c :: c in s.user && s.user[c] == u)
    && (forall u, g :: u in s.groups && g in s.groups[u] ==> h(s.groups[u][g]) == g)
  }

  /** The names of the users in group g. */
  ghost function Roster(s: State, g: Gid): set<Name> {
    set u | u in s.groups && g in s.groups[u]
  }

  /** The sessions whose user is in group g. */
  ghost function Members(s: State, g: Gid): set<ClientId> {
    set c | c in s.user && s.user[c] in s.groups && g in s.groups[s.user[c]]
  }

  /** The pairs (group, session in that group) for the given groups. */
  ghost function Pairs(s: State, gids: set<Gid>): set<(Gid, ClientId)> {
    set g, c | g in gids && c in Members(s, g) :: (g, c)
  }

  // ----- Requests

  /** Sizes that the server relies on its clients to keep. */
  predicate Admissible(r: Message) {
    && (r.kind == CHANNEL_DATA ==> |r.data| >= 4)
    && (IsCtrl(r) && (r.data[0] == BC_UNSUBSCRIPTION || r.data[0] == BC_QUERY_USER) ==> |r.data| >= 5)
  }

  predicate IsCtrl(r: Message) {
    r.kind == CHANNEL_CTRL && 0 < |r.data| <= 255
  }

  /** A control message with the given code that reaches the inner switch. */
  predicate Asks(s: State, r: Message, code: Byte) {
    IsCtrl(r) && r.client in s.user && r.data[0] == code
  }

  /** The group a leave, user query or data message is about. */
  function NamedGid(r: Message): Gid
    requires Admissible(r)
    requires r.kind == CHANNEL_DATA || (IsCtrl(r) && (r.data[0] == BC_UNSUBSCRIPTION || r.data[0] == BC_QUERY_USER))
  {
    if r.kind == CHANNEL_DATA then GetU32(r.data[0..4]) else GetU32(r.data[1..5])
  }

  /** The group name of a join message. */
  function GroupName(r: Message): (n: Name)
    requires IsCtrl(r)
  {
    CString(r.data[1..])
  }

  // ----- State changes

  function AddSession(s: State, c: ClientId, u: Name): State {
    State(s.user[c := u], if u in s.groups then s.groups else s.groups[u := map[]])
  }

  predicate IsLastSession(s: State, c: ClientId)
    requires c in s.user
  {
    forall d :: d in s.user && d != c ==> s.user[d] != s.user[c]
  }

  function DropSession(s: State, c: ClientId): State
    requires c in s.user
  {
    State(s.user - {c}, if IsLastSession(s, c) then s.groups - {s.user[c]} else s.groups)
  }

  function AddGroup(s: State, u: Name, g: Gid, n: Name): State
    requires u in s.groups
  {
    var groups: map<Gid, Name> := s.groups[u];
    if g in groups then s else s.(groups := s.groups[u := groups[g := n]])
  }

  function DropGroup(s: State, u: Name, g: Gid): State
    requires u in s.groups
  {
    s.(groups := s.groups[u := s.groups[u] - {g}])
  }

  ghost function Next(h: Hash, s: State, r: Message): State
    requires WellFormed(h, s) && Admissible(r)
  {
    if r.kind == CHANNEL_SUBSCRIBE then
      if |r.data| > 254 || r.client in s.user then s else AddSession(s, r.client, CString(r.data))
    else if Asks(s, r, BC_SUBSCRIPTION) then
      AddGroup(s, s.user[r.client], h(GroupName(r)), GroupName(r))
    else if Asks(s, r, BC_UNSUBSCRIPTION) then
      DropGroup(s, s.user[r.client], NamedGid(r))
    else if r.kind == CHANNEL_UNSUBSCRIBE && r.client in s.user then
      DropSession(s, r.client)
    else s
  }

  // ----- Messages sent

  /** One answer to session c per member session, naming the member's user. */
  ghost predicate AnswersUsers(out: seq<Message>, s: State, r: Message, g: Gid) {
    exists order: seq<ClientId> :: Lists(order, Members(s, g)) && IsUserAnswer(out, order, s, r, g)
  }

  ghost predicate IsUserAnswer(out: seq<Message>, order: seq<ClientId>, s: State, r: Message, g: Gid) {
    && |out| == |order|
    && forall i :: 0 <= i < |out| ==>
         && order[i] in s.user
         && out[i] == Message(CHANNEL_CTRL, r.channel, r.client, Answer(BC_QUERY_USER, g, s.user[order[i]]))
  }

  /** One answer to session c per group of its user. */
  ghost predicate AnswersGroups(out: seq<Message>, groups: map<Gid, Name>, r: Message) {
    exists order: seq<Gid> :: Lists(order, groups.Keys) && IsGroupAnswer(out, order, groups, r)
  }

  ghost predicate IsGroupAnswer(out: seq<Message>, order: seq<Gid>, groups: map<Gid, Name>, r: Message) {
    && |out| == |order|
    && forall i :: 0 <= i < |out| ==>
         && order[i] in groups
         && out[i] == Message(CHANNEL_CTRL, r.channel, r.client, Answer(BC_QUERY_GROUP, order[i], groups[order[i]]))
  }

  /** A single error message to the requester; its text and channel are not modelled. */
  ghost predicate IsError(out: seq<Message>, r: Message) {
    |out| == 1 && out[0].kind == CHANNEL_ERROR && out[0].client == r.client
  }

  /** The leave notices of a departing user, one per session in each of the groups; the channel id is never set. */
  ghost predicate Departure(out: seq<Message>, s: State, u: Name, gids: set<Gid>, channel: U16) {
    exists order: seq<(Gid, ClientId)> :: Lists(order, Pairs(s, gids)) && IsDeparture(out, order, u, channel)
  }

  /** The leave notice that session d gets about user u and group g. */
  function LeaveNotice(u: Name, g: Gid, d: ClientId, channel: U16): Message {
    Message(CHANNEL_CTRL, channel, d, Notice(BC_UNSUBSCRIPTION, u, g, []))
  }

  ghost predicate IsDeparture(out: seq<Message>, order: seq<(Gid, ClientId)>, u: Name, channel: U16) {
    && |out| == |order|
    && forall i :: 0 <= i < |out| ==>
         out[i] == LeaveNotice(u, order[i].0, order[i].1, channel)
  }

  /** What an UNSUBSCRIBE of a known session sends. */
  ghost predicate Farewell(out: seq<Message>, s: State, c: ClientId)
    requires c in s.user && s.user[c] in s.groups
  {
    && |out| > 0
    && var last := out[|out| - 1];
       && last == Message(CHANNEL_UNSUBSCRIBE, last.channel, c, [])
       && if IsLastSession(s, c) then
            Departure(out[..|out| - 1], s, s.user[c], s.groups[s.user[c]].Keys, last.channel)
          else |out| == 1
  }

  /** `out` is what the server may send while it handles r in state s. */
  ghost predicate Emits(h: Hash, s: State, r: Message, out: seq<Message>)
    requires WellFormed(h, s) && Admissible(r)
  {
    if r.kind == CHANNEL_CTRL then
      if !IsCtrl(r) || r.client !in s.user then IsError(out, r)
      else
        var u := s.user[r.client];
        if r.data[0] == BC_SUBSCRIPTION then
          var g := h(GroupName(r));
          Delivers(out, Members(Next(h, s, r), g),
                   Message(CHANNEL_CTRL, r.channel, 0, Notice(BC_SUBSCRIPTION, u, g, GroupName(r))))
        else if r.data[0] == BC_UNSUBSCRIPTION then
          var g := NamedGid(r);
          Delivers(out, Members(s, g), Message(CHANNEL_CTRL, r.channel, 0, Notice(BC_UNSUBSCRIPTION, u, g, [])))
        else if r.data[0] == BC_QUERY_USER then
          var g := NamedGid(r);
          if g in s.groups[u] then AnswersUsers(out, s, r, g) else IsError(out, r)
        else if r.data[0] == BC_QUERY_GROUP then
          AnswersGroups(out, s.groups[u], r)
        else IsError(out, r)
    else if r.kind == CHANNEL_DATA then
      Delivers(out, Members(s, NamedGid(r)), r)
    else if r.kind == CHANNEL_UNSUBSCRIBE && r.client in s.user then
      Farewell(out, s, r.client)
    else out == []
  }

  /** The relation, read for one kind of request. */
  lemma UnsubscribeStep(h: Hash, s: State, r: Message, out: seq<Message>)
    requires WellFormed(h, s) && Admissible(r) && r.kind == CHANNEL_UNSUBSCRIBE
    ensures Next(h, s, r) == if r.client in s.user then DropSession(s, r.client) else s
    ensures Emits(h, s, r, out) <==> if r.client in s.user then Farewell(out, s, r.client) else out == []
  {
  }

  lemma ErrorStep(h: Hash, s: State, r: Message, out: seq<Message>)
    requires WellFormed(h, s) && Admissible(r) && r.kind == CHANNEL_CTRL
    requires !IsCtrl(r) || r.client !in s.user
             || r.data[0] !in {BC_SUBSCRIPTION, BC_UNSUBSCRIPTION, BC_QUERY_USER, BC_QUERY_GROUP}
    requires IsError(out, r)
    ensures Next(h, s, r) == s && Emits(h, s, r, out)
  {
  }

  lemma JoinStep(h: Hash, s: State, r: Message, out: seq<Message>)
    requires WellFormed(h, s) && Asks(s, r, BC_SUBSCRIPTION)
    ensures var u, n := s.user[r.client], GroupName(r);
            && Next(h, s, r) == AddGroup(s, u, h(n), n)
            && (Emits(h, s, r, out) <==>
                Delivers(out, Members(Next(h, s, r), h(n)),
                         Message(CHANNEL_CTRL, r.channel, 0, Notice(BC_SUBSCRIPTION, u, h(n), n))))
  {
  }

  lemma LeaveStep(h: Hash, s: State, r: Message, out: seq<Message>)
    requires WellFormed(h, s) && Asks(s, r, BC_UNSUBSCRIPTION) && Admissible(r)
    ensures var u, g := s.user[r.client], NamedGid(r);
            && Next(h, s, r) == DropGroup(s, u, g)
            && (Emits(h, s, r, out) <==>
                Delivers(out, Members(s, g), Message(CHANNEL_CTRL, r.channel, 0, Notice(BC_UNSUBSCRIPTION, u, g, []))))
  {
  }

  lemma QueryStep(h: Hash, s: State, r: Message, out: seq<Message>)
    requires WellFormed(h, s) && Admissible(r)
    requires Asks(s, r, BC_QUERY_USER) || Asks(s, r, BC_QUERY_GROUP)
    ensures Next(h, s, r) == s
    ensures r.data[0] == BC_QUERY_USER ==>
              (Emits(h, s, r, out) <==>
               if NamedGid(r) in s.groups[s.user[r.client]] then AnswersUsers(out, s, r, NamedGid(r))
               else IsError(out, r))
    ensures r.data[0] == BC_QUERY_GROUP ==>
              (Emits(h, s, r, out) <==> AnswersGroups(out, s.groups[s.user[r.client]], r))
  {
  }

  // ----- What every request keeps

  lemma AddSessionWellFormed(h: Hash, s: State, c: ClientId, u: Name)
    requires WellFormed(h, s) && c !in s.user
    ensures WellFormed(h, AddSession(s, c, u))
  {
    var t := AddSession(s, c, u);
    forall v | v in t.groups
      ensures exists d :: d in t.user && t.user[d] == v
    {
      if v in s.groups {
        var d :| d in s.user && s.user[d] == v;
        assert t.user[d] == v;
      } else {
        assert t.user[c] == v;
      }
    }
  }

  lemma DropSessionWellFormed(h: Hash, s: State, c: ClientId)
    requires WellFormed(h, s) && c in s.user
    ensures WellFormed(h, DropSession(s, c))
  {
    var t := DropSession(s, c);
    forall v | v in t.groups
      ensures exists d :: d in t.user && t.user[d] == v
    {
      var d :| d in s.user && s.user[d] == v;
      if d != c {
        assert t.user[d] == v;
      } else {
        var e :| e in s.user && e != c && s.user[e] == s.user[c];
        assert t.user[e] == v;
      }
    }
  }

  lemma SetGroupsWellFormed(h: Hash, s: State, u: Name, groups: map<Gid, Name>)
    requires WellFormed(h, s) && u in s.groups
    requires forall g :: g in groups ==> h(groups[g]) == g
    ensures WellFormed(h, s.(groups := s.groups[u := groups]))
  {
    var t := s.(groups := s.groups[u := groups]);
    forall v | v in t.groups
      ensures exists d :: d in t.user && t.user[d] == v
    {
      assert v in s.groups;
    }
  }

  /** The plain model keeps its index: users are those with sessions, and gid is the hash of the stored name. */
  lemma NextWellFormed(h: Hash, s: State, r: Message)
    requires WellFormed(h, s) && Admissible(r)
    ensures WellFormed(h, Next(h, s, r))
  {
    if r.kind == CHANNEL_SUBSCRIBE && |r.data| <= 254 && r.client !in s.user {
      AddSessionWellFormed(h, s, r.client, CString(r.data));
    } else if Asks(s, r, BC_SUBSCRIPTION) {
      var u, n := s.user[r.client], GroupName(r);
      SetGroupsWellFormed(h, s, u, s.groups[u][h(n) := n]);
    } else if Asks(s, r, BC_UNSUBSCRIPTION) {
      var u := s.user[r.client];
      SetGroupsWellFormed(h, s, u, s.groups[u] - {NamedGid(r)});
    } else if r.kind == CHANNEL_UNSUBSCRIBE && r.client in s.user {
      DropSessionWellFormed(h, s, r.client);
    }
  }

  // ----- Runs

  /** The state after a sequence of requests. */
  ghost function After(h: Hash, s: State, reqs: seq<Message>): (t: State)
    requires WellFormed(h, s)
    requires forall r :: r in reqs ==> Admissible(r)
    ensures WellFormed(h, t)
    decreases |reqs|
  {
    if reqs == [] then s
    else
      var n := |reqs| - 1;
      var before := After(h, s, reqs[..n]);
      NextWellFormed(h, before, reqs[n]);
      Next(h, before, reqs[n])
  }

  /** From state s the server may answer the requests with these batches of messages, one batch a request. */
  ghost predicate IsRun(h: Hash, s: State, reqs: seq<Message>, outs: seq<seq<Message>>)
    requires WellFormed(h, s)
    decreases |reqs|
  {
    && |outs| == |reqs|
    && (forall r :: r in reqs ==> Admissible(r))
    && (reqs != [] ==>
          var n := |reqs| - 1;
          IsRun(h, s, reqs[..n], outs[..n]) && Emits(h, After(h, s, reqs[..n]), reqs[n], outs[n]))
  }

  function Flatten(outs: seq<seq<Message>>): seq<Message>
    decreases |outs|
  {
    if outs == [] then [] else Flatten(outs[..|outs| - 1]) + outs[|outs| - 1]
  }

  lemma RunExtend(h: Hash, s: State, reqs: seq<Message>, outs: seq<seq<Message>>, r: Message, out: seq<Message>)
    requires WellFormed(h, s) && IsRun(h, s, reqs, outs)
    requires Admissible(r) && Emits(h, After(h, s, reqs), r, out)
    ensures IsRun(h, s, reqs + [r], outs + [out])
    ensures After(h, s, reqs + [r]) == Next(h, After(h, s, reqs), r)
    ensures Flatten(outs + [out]) == Flatten(outs) + out
  {
    hide WellFormed, Emits, Next, Admissible;
    var n := |reqs|;
    assert (reqs + [r])[..n] == reqs && (reqs + [r])[n] == r;
    assert |outs| == n && (outs + [out])[..n] == outs && (outs + [out])[n] == out;
  }
}

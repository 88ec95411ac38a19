/**
 What each request does and what is sent for it, read off its bytes. Message types and codes are given as numbers,
 group ids and names are those spelled in the payload, and who is in a group is read from the two maps of the state.
*/
module BroadcastAnswers {
  import opened Bytes
  import opened TunnelCodec
  import opened Delivery
  import opened NoticeCodec
  import opened BroadcastModel
  import opened BroadcastProperties

  /** Session d is connected and its user is in group g. */
  ghost predicate InGroup(s: State, d: ClientId, g: Gid) {
    d in s.user && s.user[d] in s.groups && g in s.groups[s.user[d]]
  }

  /** One copy of m to each session in group g, and nothing else. */
  ghost predicate OncePerMember(out: seq<Message>, s: State, g: Gid, m: Message) {
    && (forall i :: 0 <= i < |out| ==> InGroup(s, out[i].client, g) && out[i] == m.(client := out[i].client))
    && (forall d :: InGroup(s, d, g) ==> multiset(out)[m.(client := d)] == 1)
  }

  lemma DeliveryOnce(out: seq<Message>, s: State, g: Gid, m: Message)
    requires Delivers(out, Members(s, g), m)
    ensures OncePerMember(out, s, g, m)
  {
    var order :| Lists(order, Members(s, g)) && IsDelivery(out, order, m);
    forall i | 0 <= i < |out|
      ensures InGroup(s, out[i].client, g)
    {
      assert order[i] in order;
    }
    forall d | InGroup(s, d, g)
      ensures multiset(out)[m.(client := d)] == 1
    {
      DeliveryTimes(out, order, m, d);
    }
  }

  /** What the server relies on: a group id where one is read. */
  lemma AdmissibleMeaning(r: Message)
    ensures Admissible(r) <==>
            !((r.kind == 0x6 && |r.data| < 4)
              || (r.kind == 0x7 && 0 < |r.data| < 5 && (r.data[0] == 0x0B || r.data[0] == 0x0C)))
  {
  }

  /** n is the part of s before its first NUL. */
  ghost predicate UpToNul(n: seq<Byte>, s: seq<Byte>) {
    n <= s && 0 !in n && (n == s || s[|n|] == 0)
  }

  lemma UpToNulUnique(n: seq<Byte>, s: seq<Byte>)
    ensures UpToNul(n, s) <==> n == CString(s)
  {
    var m := CString(s);
    if UpToNul(n, s) {
      assert forall k :: 0 <= k < |m| ==> s[k] == m[k] && m[k] != 0;
      assert forall k :: 0 <= k < |n| ==> s[k] == n[k] && n[k] != 0;
    }
  }

  lemma SpelledGid(g: Gid, s: seq<Byte>)
    requires |s| == 4
    ensures Spells32(s, g) <==> GetU32(s) == g
  {
    NetworkOrder32(g, s);
  }

  /** SUBSCRIBE: the session is stored under the name in the payload; a user that is new has no groups yet. */
  lemma SubscribeAnswer(h: Hash, s: State, r: Message, out: seq<Message>, u: Name)
    requires WellFormed(h, s) && Admissible(r) && Emits(h, s, r, out)
    requires r.kind == 0x2 && |r.data| <= 254 && r.client !in s.user && UpToNul(u, r.data)
    ensures Next(h, s, r).user == s.user[r.client := u]
    ensures Next(h, s, r).groups == if u in s.groups then s.groups else s.groups[u := map[]]
    ensures out == []
  {
    UpToNulUnique(u, r.data);
  }

  /** SUBSCRIBE with a name that is too long or from a session that is known, and messages of other types: nothing. */
  lemma NoAnswer(h: Hash, s: State, r: Message, out: seq<Message>)
    requires WellFormed(h, s) && Admissible(r) && Emits(h, s, r, out)
    requires || (r.kind == 0x2 && (|r.data| > 254 || r.client in s.user))
             || (r.kind == 0x3 && r.client !in s.user)
             || r.kind !in {0x2, 0x3, 0x6, 0x7}
    ensures Next(h, s, r) == s && out == []
  {
  }

  /** BC_SUBSCRIPTION: the user is in the named group, and each session then in it is told who joined. */
  lemma JoinAnswer(h: Hash, s: State, r: Message, out: seq<Message>, n: Name)
    requires WellFormed(h, s) && Admissible(r) && Emits(h, s, r, out)
    requires r.kind == 0x7 && 0 < |r.data| <= 255 && r.client in s.user
    requires r.data[0] == 0x0A && UpToNul(n, r.data[1..])
    ensures var u, g, t := s.user[r.client], h(n), Next(h, s, r);
            && t.user == s.user
            && InGroup(t, r.client, g)
            && OncePerMember(out, t, g, Message(0x7, r.channel, 0, Notice(0x0A, u, g, n)))
            && var groups: map<Gid, Name> := s.groups[u];
               t.groups == if g in groups then s.groups else s.groups[u := groups[g := n]]
  {
    UpToNulUnique(n, r.data[1..]);
    JoinStep(h, s, r, out);
    DeliveryOnce(out, Next(h, s, r), h(n), Message(0x7, r.channel, 0, Notice(0x0A, s.user[r.client], h(n), n)));
    hide Emits, Notice, CString;
  }

  /** BC_UNSUBSCRIPTION: each session in the group is told who leaves, the leaver's included; then the user is out. */
  lemma LeaveAnswer(h: Hash, s: State, r: Message, out: seq<Message>, g: Gid)
    requires WellFormed(h, s) && Admissible(r) && Emits(h, s, r, out)
    requires r.kind == 0x7 && 5 <= |r.data| <= 255 && r.client in s.user
    requires r.data[0] == 0x0B && Spells32(r.data[1..5], g)
    ensures var u := s.user[r.client];
            && Next(h, s, r) == State(s.user, s.groups[u := s.groups[u] - {g}])
            && OncePerMember(out, s, g, Message(0x7, r.channel, 0, Notice(0x0B, u, g, [])))
  {
    SpelledGid(g, r.data[1..5]);
    LeaveStep(h, s, r, out);
    DeliveryOnce(out, s, g, Message(0x7, r.channel, 0, Notice(0x0B, s.user[r.client], g, [])));
    hide Emits, Notice, GetU32;
  }

  /** The sessions of user v that are in group g. */
  ghost function SessionsIn(s: State, v: Name, g: Gid): set<ClientId> {
    set d | d in s.user && s.user[d] == v && InGroup(s, d, g)
  }

  ghost function SessionsAmong(order: seq<ClientId>, s: State, v: Name): set<ClientId> {
    set d | d in order && d in s.user && s.user[d] == v
  }

  lemma AmongExtend(order: seq<ClientId>, d: ClientId, s: State, v: Name)
    requires d !in order && d in s.user
    ensures |SessionsAmong(order + [d], s, v)| == |SessionsAmong(order, s, v)| + if s.user[d] == v then 1 else 0
  {
    var before := SessionsAmong(order, s, v);
    assert SessionsAmong(order + [d], s, v) == if s.user[d] == v then before + {d} else before;
  }

  /** BC_QUERY_USER by a member: the requester alone gets, for each user in the group, one answer per session. */
  lemma UserQueryAnswer(h: Hash, s: State, r: Message, out: seq<Message>, g: Gid)
    requires WellFormed(h, s) && Admissible(r) && Emits(h, s, r, out)
    requires r.kind == 0x7 && 5 <= |r.data| <= 255 && r.client in s.user
    requires r.data[0] == 0x0C && Spells32(r.data[1..5], g) && g in s.groups[s.user[r.client]]
    ensures Next(h, s, r) == s
    ensures forall i :: 0 <= i < |out| ==>
              exists v :: v in s.groups && out[i] == Message(0x7, r.channel, r.client, Answer(0x0C, g, v))
    ensures forall v: Name :: multiset(out)[Message(0x7, r.channel, r.client, Answer(0x0C, g, v))]
                              == |SessionsIn(s, v, g)|
  {
    SpelledGid(g, r.data[1..5]);
    QueryStep(h, s, r, out);
    assert AnswersUsers(out, s, r, g);
    hide Emits, Next, GetU32, Answer, WellFormed;
    var order :| Lists(order, Members(s, g)) && IsUserAnswer(out, order, s, r, g);
    forall i | 0 <= i < |out|
      ensures exists v :: v in s.groups && out[i] == Message(0x7, r.channel, r.client, Answer(0x0C, g, v))
    {
      assert order[i] in order;
      assert s.user[order[i]] in s.groups;
    }
    forall v: Name
      ensures multiset(out)[Message(0x7, r.channel, r.client, Answer(0x0C, g, v))] == |SessionsIn(s, v, g)|
    {
      UserAnswerTimes(out, order, s, r, g, v);
      assert SessionsAmong(order, s, v) == SessionsIn(s, v, g);
    }
  }

  lemma {:induction false} UserAnswerTimes(out: seq<Message>, order: seq<ClientId>, s: State, r: Message, g: Gid,
                                           v: Name)
    requires IsUserAnswer(out, order, s, r, g)
    requires forall d :: d in order ==> d in s.user
    requires forall i, j :: 0 <= i < j < |order| ==> order[i] != order[j]
    ensures multiset(out)[Message(0x7, r.channel, r.client, Answer(0x0C, g, v))] == |SessionsAmong(order, s, v)|
    decreases |out|
  {
    if out != [] {
      hide Answer, Decode, SessionsAmong;
      var n := |out| - 1;
      var d := order[n];
      UserAnswerTimes(out[..n], order[..n], s, r, g, v);
      TimesExtend(Message(0x7, r.channel, r.client, Answer(0x0C, g, v)), out);
      assert order == order[..n] + [d];
      AmongExtend(order[..n], d, s, v);
      AnswerRoundTrip(g, v);
      AnswerRoundTrip(g, s.user[d]);
    } else {
      assert SessionsAmong(order, s, v) == {};
    }
  }

  /** BC_QUERY_GROUP: the requester alone gets one answer for each of its groups. */
  lemma GroupQueryAnswer(h: Hash, s: State, r: Message, out: seq<Message>)
    requires WellFormed(h, s) && Admissible(r) && Emits(h, s, r, out)
    requires r.kind == 0x7 && 0 < |r.data| <= 255 && r.client in s.user && r.data[0] == 0x0D
    ensures Next(h, s, r) == s
    ensures var groups := s.groups[s.user[r.client]];
            && |out| == |groups|
            && forall g :: g in groups ==>
                 multiset(out)[Message(0x7, r.channel, r.client, Answer(0x0D, g, groups[g]))] == 1
  {
    QueryStep(h, s, r, out);
    GroupQuerySound(h, s, r, out);
    hide Emits, WellFormed, Answer;
  }

  /**
   A control message of a bad size, from an unknown client or with an unknown code, and a user query by somebody who
   is not in the group, give one error message to the sender and change nothing.
  */
  lemma ErrorAnswer(h: Hash, s: State, r: Message, out: seq<Message>, g: Gid)
    requires WellFormed(h, s) && Admissible(r) && Emits(h, s, r, out)
    requires r.kind == 0x7
    requires || |r.data| == 0 || |r.data| > 255
             || r.client !in s.user
             || r.data[0] !in {0x0A, 0x0B, 0x0C, 0x0D}
             || (r.data[0] == 0x0C && Spells32(r.data[1..5], g) && !InGroup(s, r.client, g))
    ensures Next(h, s, r) == s
    ensures |out| == 1 && out[0].kind == 0x1 && out[0].client == r.client
  {
    if 5 <= |r.data| {
      SpelledGid(g, r.data[1..5]);
    }
    hide GetU32, Spells32;
  }

  /** DATA: the message as it came, to each session in the group whose id the payload starts with. */
  lemma DataAnswer(h: Hash, s: State, r: Message, out: seq<Message>, g: Gid)
    requires WellFormed(h, s) && Admissible(r) && Emits(h, s, r, out)
    requires r.kind == 0x6 && |r.data| >= 4 && Spells32(r.data[..4], g)
    ensures Next(h, s, r) == s
    ensures OncePerMember(out, s, g, r)
  {
    assert r.data[0..4] == r.data[..4];
    SpelledGid(g, r.data[..4]);
    DeliveryOnce(out, s, g, r);
  }

  /** UNSUBSCRIBE while the user has another session: only the session goes. */
  lemma SessionEnds(h: Hash, s: State, r: Message, out: seq<Message>, d: ClientId)
    requires WellFormed(h, s) && Admissible(r) && Emits(h, s, r, out)
    requires r.kind == 0x3 && r.client in s.user
    requires d in s.user && d != r.client && s.user[d] == s.user[r.client]
    ensures Next(h, s, r) == State(s.user - {r.client}, s.groups)
    ensures |out| == 1 && out[0].kind == 0x3 && out[0].client == r.client && out[0].data == []
  {
  }

  /** The groups of user u, each with the sessions in it. */
  ghost function GroupSessions(s: State, u: Name): set<(Gid, ClientId)>
    requires u in s.groups
  {
    set g, d | g in s.groups[u] && d in s.user && InGroup(s, d, g) :: (g, d)
  }

  /**
   UNSUBSCRIBE of the only session of a user: for each of its groups and each session in that group one leave notice,
   then the UNSUBSCRIBE; the user and its groups are forgotten.
  */
  lemma UserEnds(h: Hash, s: State, r: Message, out: seq<Message>)
    requires WellFormed(h, s) && Admissible(r) && Emits(h, s, r, out)
    requires r.kind == 0x3 && r.client in s.user
    requires forall d :: d in s.user && d != r.client ==> s.user[d] != s.user[r.client]
    ensures var u := s.user[r.client];
            && Next(h, s, r) == State(s.user - {r.client}, s.groups - {u})
            && |out| == |GroupSessions(s, u)| + 1
            && var last := out[|out| - 1];
               && last.kind == 0x3 && last.client == r.client && last.data == []
               && forall g, d :: g in s.groups[u] && InGroup(s, d, g) ==>
                    multiset(out)[Message(0x7, last.channel, d, Notice(0x0B, u, g, []))] == 1
  {
    LastSessionDeparture(h, s, r, out);
    UnsubscribeStep(h, s, r, out);
    var u, n := s.user[r.client], |out| - 1;
    assert GroupSessions(s, u) == Pairs(s, s.groups[u].Keys);
    hide Emits, WellFormed, Notice, Pairs, GroupSessions;
    forall g, d | g in s.groups[u] && InGroup(s, d, g)
      ensures multiset(out)[Message(0x7, out[n].channel, d, Notice(0x0B, u, g, []))] == 1
    {
      var m := Message(0x7, out[n].channel, d, Notice(0x0B, u, g, []));
      assert m == LeaveNotice(u, g, d, out[n].channel);
      assert d in Members(s, g);
      TimesExtend(m, out);
    }
  }

  /** The state after a sequence of requests, one request at a time. */
  lemma AfterMeaning(h: Hash, s: State, reqs: seq<Message>, r: Message)
    requires WellFormed(h, s) && Admissible(r) && forall q :: q in reqs ==> Admissible(q)
    ensures After(h, s, []) == s
    ensures After(h, s, reqs + [r]) == Next(h, After(h, s, reqs), r)
  {
    hide WellFormed, Next, Admissible;
    assert (reqs + [r])[..|reqs|] == reqs;
  }

  /** In a run each request is answered in the state that the ones before it left behind. */
  lemma {:induction false} RunMeaning(h: Hash, s: State, reqs: seq<Message>, outs: seq<seq<Message>>)
    requires WellFormed(h, s) && forall r :: r in reqs ==> Admissible(r)
    ensures IsRun(h, s, reqs, outs) <==>
            && |outs| == |reqs|
            && forall i :: 0 <= i < |reqs| ==> Emits(h, After(h, s, reqs[..i]), reqs[i], outs[i])
    decreases |reqs|
  {
    hide After, Emits, WellFormed, Admissible;
    if reqs != [] && |outs| == |reqs| {
      var n := |reqs| - 1;
      RunMeaning(h, s, reqs[..n], outs[..n]);
      assert forall i :: 0 <= i < n ==> reqs[..n][..i] == reqs[..i];
    }
  }

  /** What the replay results ask of session c: before the first request and after each its user is in g. */
  lemma {:induction false} StaysInMeaning(h: Hash, s: State, reqs: seq<Message>, c: ClientId, g: Gid)
    requires WellFormed(h, s) && forall r :: r in reqs ==> Admissible(r)
    ensures StaysIn(h, s, reqs, c, g) <==> forall i :: 0 <= i <= |reqs| ==> InGroup(After(h, s, reqs[..i]), c, g)
    decreases |reqs|
  {
    hide After, WellFormed, Admissible;
    assert reqs[..|reqs|] == reqs;
    assert c in Members(After(h, s, reqs), g) <==> InGroup(After(h, s, reqs), c, g);
    hide Members, InGroup;
    if reqs != [] {
      var n := |reqs| - 1;
      StaysInMeaning(h, s, reqs[..n], c, g);
      assert forall i :: 0 <= i <= n ==> reqs[..n][..i] == reqs[..i];
    }
  }
}

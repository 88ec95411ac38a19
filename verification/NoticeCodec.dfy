/** The control payloads of the broadcast channel: what the server writes into its buffer and what a session reads. */
module NoticeCodec {
  import opened Bytes

  const BC_SUBSCRIPTION: Byte := 0x0A
  const BC_UNSUBSCRIPTION: Byte := 0x0B
  const BC_QUERY_USER: Byte := 0x0C
  const BC_QUERY_GROUP: Byte := 0x0D

  /** User and group names: NUL-free, and short enough for a char[255] with its terminator. */
  type Name = n: seq<Byte> | |n| <= 254 && 0 !in n witness []

  type Gid = U32

  /** [code][user name size][user name][gid][group name], for a join or a leave. */
  function Notice(code: Byte, user: Name, gid: Gid, group: Name): (s: seq<Byte>)
    ensures 6 <= |s| <= 514
  {
    [code, |user|] + user + PutU32(gid) + group
  }

  /** [code][gid][name]: one answer to a query for the users of a group, or for the groups of a user. */
  function Answer(code: Byte, gid: Gid, name: Name): (s: seq<Byte>)
    ensures 5 <= |s| <= 514
  {
    [code] + PutU32(gid) + name
  }

  /** What a session learns from a control payload. */
  datatype News =
    | Joined(user: seq<Byte>, gid: Gid, group: seq<Byte>)
    | Left(user: seq<Byte>, gid: Gid, group: seq<Byte>)
    | HasUser(gid: Gid, user: seq<Byte>)
    | HasGroup(gid: Gid, group: seq<Byte>)
    | Unreadable

  function Decode(s: seq<Byte>): (n: News) {
    if s == [] then Unreadable
    else if s[0] == BC_SUBSCRIPTION || s[0] == BC_UNSUBSCRIPTION then
      if |s| < 2 || |s| < 6 + (s[1] as int) then Unreadable
      else
        var at := 2 + (s[1] as int);
        var gid := GetU32(s[at..at + 4]);
        if s[0] == BC_SUBSCRIPTION then Joined(s[2..at], gid, s[at + 4..]) else Left(s[2..at], gid, s[at + 4..])
    else if |s| < 5 then Unreadable
    else if s[0] == BC_QUERY_USER then HasUser(GetU32(s[1..5]), s[5..])
    else if s[0] == BC_QUERY_GROUP then HasGroup(GetU32(s[1..5]), s[5..])
    else Unreadable
  }

  /** Where each field of a notice sits. */
  lemma NoticeLayout(code: Byte, user: Name, gid: Gid, group: Name)
    ensures var s, at := Notice(code, user, gid, group), 2 + |user|;
            && |s| == at + 4 + |group| <= 514
            && s[0] == code && s[1] == |user| && s[2..at] == user
            && Spells32(s[at..at + 4], gid) && s[at + 4..] == group
  {
    NetworkOrder32(gid, PutU32(gid));
    var s, at := Notice(code, user, gid, group), 2 + |user|;
    hide Spells32, PutU32;
    assert s[at..at + 4] == PutU32(gid);
  }

  /** Where each field of an answer sits. */
  lemma AnswerLayout(code: Byte, gid: Gid, name: Name)
    ensures var s := Answer(code, gid, name);
            |s| == 5 + |name| && s[0] == code && Spells32(s[1..5], gid) && s[5..] == name
  {
    NetworkOrder32(gid, PutU32(gid));
    hide Spells32, PutU32;
    assert Answer(code, gid, name)[1..5] == PutU32(gid);
  }

  /** Notices decode to what was encoded, so no two of them share a payload. */
  lemma NoticeRoundTrip(user: Name, gid: Gid, group: Name)
    ensures |Notice(BC_SUBSCRIPTION, user, gid, group)| == |Notice(BC_UNSUBSCRIPTION, user, gid, group)| <= 514
    ensures Decode(Notice(BC_SUBSCRIPTION, user, gid, group)) == Joined(user, gid, group)
    ensures Decode(Notice(BC_UNSUBSCRIPTION, user, gid, group)) == Left(user, gid, group)
  {
    U32RoundTrip(gid, PutU32(gid));
    forall code | code == BC_SUBSCRIPTION || code == BC_UNSUBSCRIPTION
      ensures var s := Notice(code, user, gid, group);
              var at := 2 + |user|;
              s[0] == code && s[1] == |user| && s[2..at] == user && s[at..at + 4] == PutU32(gid) && s[at + 4..] == group
    {
    }
  }

  lemma AnswerRoundTrip(gid: Gid, name: Name)
    ensures |Answer(BC_QUERY_USER, gid, name)| == |Answer(BC_QUERY_GROUP, gid, name)| <= 259
    ensures Decode(Answer(BC_QUERY_USER, gid, name)) == HasUser(gid, name)
    ensures Decode(Answer(BC_QUERY_GROUP, gid, name)) == HasGroup(gid, name)
  {
    U32RoundTrip(gid, PutU32(gid));
    forall code: Byte
      ensures Answer(code, gid, name)[1..5] == PutU32(gid) && Answer(code, gid, name)[5..] == name
    {
    }
  }
}

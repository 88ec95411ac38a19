/** The frame format of the tunnel protocol, as a printer and a parser on byte sequences. */
module TunnelCodec {
  import opened Bytes

  const MSG_MAGIC_BEGIN: U16 := 0x414e
  const MSG_MAGIC_END: U16 := 0x5444

  const CHANNEL_ERROR: Byte := 0x1
  const CHANNEL_SUBSCRIBE: Byte := 0x2
  const CHANNEL_UNSUBSCRIBE: Byte := 0x3
  const CHANNEL_DATA: Byte := 0x6
  const CHANNEL_CTRL: Byte := 0x7

  /** Payload sizes that the transfer loops can count in an int. */
  type Payload = d: seq<Byte> | |d| < 0x8000_0000

  /** A tunnel message; the size field of its header is the length of data. */
  datatype Message = Message(kind: Byte, channel: U16, client: U16, data: Payload)

  /** The pieces msg_write hands to guard_write, one by one. */
  datatype Pieces = Done | Piece(bytes: seq<Byte>, more: Pieces)

  function Trailer(): Pieces {
    Piece(PutU16(MSG_MAGIC_END), Done)
  }

  function FramePieces(m: Message): Pieces {
    Piece(PutU16(MSG_MAGIC_BEGIN),
      Piece([m.kind],
        Piece(PutU16(m.channel),
          Piece(PutU16(m.client),
            Piece(PutU32(|m.data|),
              if |m.data| > 0 then Piece(m.data, Trailer()) else Trailer())))))
  }

  /** The bytes of one frame. */
  function Encode(m: Message): (s: seq<Byte>)
    ensures |s| == 13 + |m.data|
  {
    PutU16(MSG_MAGIC_BEGIN) + [m.kind] + PutU16(m.channel) + PutU16(m.client) + PutU32(|m.data|)
    + m.data + PutU16(MSG_MAGIC_END)
  }

  function EncodeAll(ms: seq<Message>): seq<Byte> {
    if ms == [] then [] else Encode(ms[0]) + EncodeAll(ms[1..])
  }

  /** Where each field of a frame sits. */
  lemma Layout(m: Message, rest: seq<Byte>)
    ensures var s := Encode(m) + rest;
            && s[0..2] == PutU16(MSG_MAGIC_BEGIN) && s[2] == m.kind
            && s[3..5] == PutU16(m.channel) && s[5..7] == PutU16(m.client)
            && s[7..11] == PutU32(|m.data|) && s[11..11 + |m.data|] == m.data
            && s[11 + |m.data|..13 + |m.data|] == PutU16(MSG_MAGIC_END)
            && s[13 + |m.data|..] == rest
  {
  }

  /** A frame on the wire, byte by byte: "AN", type, channel, client and size in network order, payload, "TD". */
  lemma FrameBytes(m: Message)
    ensures var s, n := Encode(m), |m.data|;
            && |s| == 13 + n
            && s[0] == 0x41 && s[1] == 0x4e && s[2] == m.kind
            && (s[3] as int) * 0x100 + s[4] == m.channel
            && (s[5] as int) * 0x100 + s[6] == m.client
            && (((s[7] as int) * 0x100 + s[8]) * 0x100 + s[9]) * 0x100 + s[10] == n
            && s[11..11 + n] == m.data
            && s[11 + n] == 0x54 && s[12 + n] == 0x44
  {
    var s, n := Encode(m), |m.data|;
    Layout(m, []);
    assert s + [] == s;
    NetworkOrder16(MSG_MAGIC_BEGIN, [0, 0]);
    NetworkOrder16(m.channel, [0, 0]);
    NetworkOrder16(m.client, [0, 0]);
    NetworkOrder32(n, [0, 0, 0, 0]);
    NetworkOrder16(MSG_MAGIC_END, [0, 0]);
    hide Encode, PutU16, PutU32;
    assert s[0] == s[0..2][0] && s[1] == s[0..2][1];
    assert s[3] == s[3..5][0] && s[4] == s[3..5][1];
    assert s[5] == s[5..7][0] && s[6] == s[5..7][1];
    assert s[7] == s[7..11][0] && s[8] == s[7..11][1] && s[9] == s[7..11][2] && s[10] == s[7..11][3];
    assert s[11 + n] == s[11 + n..13 + n][0] && s[12 + n] == s[11 + n..13 + n][1];
  }

  /** No frame is a proper prefix of another one, and a frame determines its message. */
  lemma PrefixFree(m: Message, n: Message, r: seq<Byte>, t: seq<Byte>)
    requires Encode(m) + r == Encode(n) + t
    ensures m == n && r == t
  {
    Layout(m, r);
    Layout(n, t);
    U16RoundTrip(m.channel, [0, 0]);
    U16RoundTrip(n.channel, [0, 0]);
    U16RoundTrip(m.client, [0, 0]);
    U16RoundTrip(n.client, [0, 0]);
    U32RoundTrip(|m.data|, [0, 0, 0, 0]);
    U32RoundTrip(|n.data|, [0, 0, 0, 0]);
  }

  /** A stream of frames determines the list of messages it carries. */
  lemma {:induction false} StreamInjective(ms: seq<Message>, ns: seq<Message>)
    requires EncodeAll(ms) == EncodeAll(ns)
    ensures ms == ns
  {
    if ms == [] {
      assert ns == [];
    } else if ns != [] {
      PrefixFree(ms[0], ns[0], EncodeAll(ms[1..]), EncodeAll(ns[1..]));
      StreamInjective(ms[1..], ns[1..]);
    }
  }
}

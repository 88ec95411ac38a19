/** Messages that go to several clients of a channel at once. */
module Delivery {
  import opened Bytes
  import opened TunnelCodec

  type ClientId = U16

  /** One copy of m for each session in `to`, in some order, only the client id differing. */
  ghost predicate Delivers(out: seq<Message>, to: set<ClientId>, m: Message) {
    exists order: seq<ClientId> :: Lists(order, to) && IsDelivery(out, order, m)
  }

  ghost predicate IsDelivery(out: seq<Message>, order: seq<ClientId>, m: Message) {
    |out| == |order| && forall i :: 0 <= i < |out| ==> out[i] == m.(client := order[i])
  }

  /** How often m occurs in what was sent. */
  function Times(m: Message, out: seq<Message>): nat {
    multiset(out)[m]
  }

  lemma TimesExtend(m: Message, out: seq<Message>)
    requires out != []
    ensures var n := |out| - 1; Times(m, out) == Times(m, out[..n]) + if m == out[n] then 1 else 0
  {
    assert out == out[..|out| - 1] + [out[|out| - 1]];
  }

  lemma {:induction false} DeliveryTimes(out: seq<Message>, order: seq<ClientId>, m: Message, d: ClientId)
    requires IsDelivery(out, order, m)
    requires forall i, j :: 0 <= i < j < |order| ==> order[i] != order[j]
    ensures Times(m.(client := d), out) == if d in order then 1 else 0
    decreases |out|
  {
    if out != [] {
      var n := |out| - 1;
      DeliveryTimes(out[..n], order[..n], m, d);
      TimesExtend(m.(client := d), out);
      assert order == order[..n] + [order[n]];
    }
  }
}

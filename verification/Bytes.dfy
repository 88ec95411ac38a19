/** Bytes, fixed-width numbers in network byte order, C strings, and listings of finite sets. */
module Bytes {

  type Byte = b: int | 0 <= b < 0x100
  type U16 = n: int | 0 <= n < 0x1_0000
  type U32 = n: int | 0 <= n < 0x1_0000_0000

  // ----- htons / ntohs and htonl / ntohl, seen as byte sequences

  function PutU16(n: U16): (s: seq<Byte>)
    ensures |s| == 2
  {
    [n / 0x100, n % 0x100]
  }

  function GetU16(s: seq<Byte>): U16
    requires |s| == 2
  {
    (s[0] as int) * 0x100 + s[1]
  }

  function PutU32(n: U32): (s: seq<Byte>)
    ensures |s| == 4
  {
    PutU16(n / 0x1_0000) + PutU16(n % 0x1_0000)
  }

  function GetU32(s: seq<Byte>): U32
    requires |s| == 4
  {
    (GetU16(s[..2]) as int) * 0x1_0000 + GetU16(s[2..])
  }

  /** The most significant byte comes first. */
  predicate Spells16(s: seq<Byte>, n: int) {
    |s| == 2 && (s[0] as int) * 0x100 + s[1] == n
  }

  predicate Spells32(s: seq<Byte>, n: int) {
    |s| == 4 && (((s[0] as int) * 0x100 + s[1]) * 0x100 + s[2]) * 0x100 + s[3] == n
  }

  lemma NetworkOrder16(n: U16, s: seq<Byte>)
    requires |s| == 2
    ensures Spells16(PutU16(n), n) && Spells16(s, GetU16(s))
  {
  }

  lemma NetworkOrder32(n: U32, s: seq<Byte>)
    requires |s| == 4
    ensures Spells32(PutU32(n), n) && Spells32(s, GetU32(s))
  {
    var p := PutU32(n);
    NetworkOrder16(n / 0x1_0000, s[..2]);
    NetworkOrder16(n % 0x1_0000, s[2..]);
    assert p[..2] == PutU16(n / 0x1_0000) && p[2..] == PutU16(n % 0x1_0000);
  }

  lemma U16RoundTrip(n: U16, s: seq<Byte>)
    requires |s| == 2
    ensures GetU16(PutU16(n)) == n
    ensures PutU16(GetU16(s)) == s
  {
  }

  lemma U32RoundTrip(n: U32, s: seq<Byte>)
    requires |s| == 4
    ensures GetU32(PutU32(n)) == n
    ensures PutU32(GetU32(s)) == s
  {
    U16RoundTrip(n / 0x1_0000, s[..2]);
    U16RoundTrip(n % 0x1_0000, s[2..]);
    assert PutU32(n)[..2] == PutU16(n / 0x1_0000) && PutU32(n)[2..] == PutU16(n % 0x1_0000);
    var m := GetU32(s);
    assert m / 0x1_0000 == GetU16(s[..2]) && m % 0x1_0000 == GetU16(s[2..]);
    assert s == s[..2] + s[2..];
  }

  // ----- C strings

  /** What strlen, strcmp and strcpy see of a NUL-terminated buffer holding s: the part before the first NUL. */
  function CString(s: seq<Byte>): (t: seq<Byte>)
    ensures t <= s
    ensures 0 !in t
    ensures t == s || s[|t|] == 0
  {
    if s == [] || s[0] == 0 then [] else [s[0]] + CString(s[1..])
  }

  // ----- Enumerations: the order in which a tree walk visits a set is not known

  /** order names every element of all exactly once. */
  ghost predicate Lists<T>(order: seq<T>, all: set<T>) {
    && (forall x :: x in order ==> x in all)
    && (forall x :: x in all ==> x in order)
    && (forall i, j :: 0 <= i < j < |order| ==> order[i] != order[j])
  }

  lemma ListsExtend<T>(order: seq<T>, all: set<T>, x: T)
    requires Lists(order, all)
    requires x !in all
    ensures Lists(order + [x], all + {x})
  {
    forall i, j | 0 <= i < j < |order + [x]|
      ensures (order + [x])[i] != (order + [x])[j]
    {
      assert order[i] in order;
    }
  }

  /** A walk over a set that has visited all but `todo`, and listed those of `all` on its way, visits x. */
  lemma WalkTurn<T>(order: seq<T>, all: set<T>, todo: set<T>, x: T)
    requires Lists(order, all - todo)
    requires x in todo
    ensures Lists(if x in all then order + [x] else order, all - (todo - {x}))
  {
    if x in all {
      ListsExtend(order, all - todo, x);
      assert all - (todo - {x}) == all - todo + {x};
    } else {
      assert all - (todo - {x}) == all - todo;
    }
  }
}

/** Sets that are walked in no particular order, and byte strings that arrive in pieces. */
module Collections {
  import opened Decimal

  lemma HasMember<T>(s: set<T>)
    ensures s == {} || exists y :: y in s
  {
    if forall y :: y !in s { assert s == {}; }
  }

  lemma AMember<T>(s: set<T>) returns (y: T)
    requires s != {}
    ensures y in s
  {
    HasMember(s);
    y :| y in s;
  }

  function Joined(q: seq<seq<byte>>): seq<byte> { if q == [] then [] else q[0] + Joined(q[1..]) }

  lemma {:induction false} JoinedLast(q: seq<seq<byte>>, p: seq<byte>)
    ensures Joined(q + [p]) == Joined(q) + p
  {
    if q == [] {
      assert [] + [p] == [p];
      assert [p][1..] == [];
    } else {
      assert (q + [p])[1..] == q[1..] + [p];
      JoinedLast(q[1..], p);
    }
  }
}

/** The gateway lease key and the acknowledgement fenced by it. The lease is an expiring Redis key holding the
    owner's id: it is set only if absent and deleted only by its holder. An acknowledgement takes messages
    off the consumer group's pending list only while the caller's id is the key's value, which for one
    message is the acknowledging step of module GatewayConsumer. */
module GatewayLeasing {
  import opened Options
  import L = Leases
  import C = GatewayConsumer

  class GatewayLease {
    var holder: Option<string>
    /** The pending list of the gateway's consumer group. */
    var pending: set<string>

    constructor ()
      ensures holder == None && pending == {}
    {
      holder, pending := None, {};
    }

    method Acquire(ownerId: string) returns (acquired: bool)
      modifies this`holder
      ensures acquired == (old(holder) == None) && holder == (if acquired then Some(ownerId) else old(holder))
      ensures holder == L.Next(old(holder), L.Acquire(ownerId))
    {
      acquired := holder.None?;
      if acquired {
        holder := Some(ownerId);
      }
    }

    method Release(ownerId: string) returns (released: bool)
      modifies this`holder
      ensures released == (old(holder) == Some(ownerId)) && holder == (if released then None else old(holder))
      ensures holder == L.Next(old(holder), L.Release(ownerId))
    {
      released := holder == Some(ownerId);
      if released {
        holder := None;
      }
    }

    predicate IsOwner(ownerId: string)
      reads this
    {
      holder == Some(ownerId)
    }

    /** Without ids only the ownership is read. A repeated id counts once. */
    method AcknowledgeIfOwned(ownerId: string, messageIds: seq<string>) returns (owned: bool, count: nat)
      modifies this`pending
      ensures owned == (holder == Some(ownerId))
      ensures pending == if owned then old(pending) - IdSet(messageIds) else old(pending)
      ensures count == |old(pending)| - |pending|
      ensures |messageIds| == 1 ==> AgreesWithSystem(old(pending), messageIds[0], ownerId)
    {
      if |messageIds| == 0 {
        return IsOwner(ownerId), 0;
      }
      owned, count := IsOwner(ownerId), 0;
      if owned {
        count := Xack(messageIds);
      }
    }

    /** The command itself. */
    method Xack(messageIds: seq<string>) returns (count: nat)
      modifies this`pending
      ensures pending == old(pending) - IdSet(messageIds) && count == |old(pending)| - |pending|
    {
      count := 0;
      for i := 0 to |messageIds|
        invariant pending == old(pending) - IdSet(messageIds[..i])
        invariant count == |old(pending)| - |pending|
      {
        OneMoreId(messageIds, i);
        if messageIds[i] in pending {
          pending := pending - {messageIds[i]};
          count := count + 1;
        }
      }
      assert messageIds[..|messageIds|] == messageIds;
    }

    /** For one message this is the acknowledgement step of the gateway system. */
    ghost predicate AgreesWithSystem(before: set<string>, m: string, ownerId: string)
      reads this
    {
      forall s: C.System :: s.lease == holder && s.pending == before ==> C.Acknowledge(s, ownerId, m).pending == pending
    }
  }

  function IdSet(ids: seq<string>): set<string> {
    set m | m in ids
  }

  lemma OneMoreId(ids: seq<string>, i: nat)
    requires i < |ids|
    ensures IdSet(ids[..i + 1]) == IdSet(ids[..i]) + {ids[i]}
  {
    assert ids[..i + 1] == ids[..i] + [ids[i]];
  }

}

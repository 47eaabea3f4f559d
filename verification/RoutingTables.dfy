/** The gateway's tables as values: a table routes a key (an account, a user) to connection ids and is
    kept the inverse of what each connection says about itself. */
module RoutingTables {
  import opened Delivery
  import opened SetTables

  type Table = map<string, set<string>>

  /** Route `keys` to `id`. */
  function AddRoutes(m: Table, keys: set<string>, id: string): Table {
    map k | k in m.Keys + keys :: if k in keys then Members(m, k) + {id} else m[k]
  }

  /** For every known connection the table is exactly the inverse of `says`; no route is empty. */
  ghost predicate Inverse(m: Table, says: Table) {
    && (forall id, k :: id in says ==> (id in Members(m, k) <==> k in says[id]))
    && NoEmpty(m)
  }

  /** No key is routed to a connection that is not known. */
  ghost predicate NoLeak(m: Table, ids: set<string>) {
    forall k, id :: id in Members(m, k) ==> id in ids
  }

  ghost predicate Bounded(m: Table, limit: nat) {
    forall k :: k in m ==> |m[k]| <= limit
  }

  lemma RouteNone(m: Table, id: string)
    ensures AddRoutes(m, {}, id) == m
  {}

  /** One round of the route loop. */
  lemma RouteOne(m: Table, done: set<string>, k: string, id: string)
    ensures var r := AddRoutes(m, done, id);
      r[k := Members(r, k) + {id}] == AddRoutes(m, done + {k}, id)
  {
    var r := AddRoutes(m, done, id);
    var x, y := r[k := Members(r, k) + {id}], AddRoutes(m, done + {k}, id);
    forall j | j in x ensures x[j] == y[j] {}
  }

  lemma RemoveRoutesStep(m: Table, done: set<string>, k: string, id: string)
    requires k !in done
    ensures DropAll(DropAll(m, done, id), {k}, id) == DropAll(m, done + {k}, id)
  {
    var x, y := DropAll(DropAll(m, done, id), {k}, id), DropAll(m, done + {k}, id);
    forall j | j in x ensures j in y && x[j] == y[j] {}
    forall j | j in y ensures j in x {}
  }

  /** One round of the discard-and-prune loop. */
  lemma DiscardIsRemove(m: Table, k: string, id: string)
    ensures DropAll(m, {k}, id)
         == if k !in m then m else if m[k] - {id} == {} then m - {k} else m[k := m[k] - {id}]
  {}

  /** Subscribing a known connection keeps the table its subscriptions' inverse; for an unknown one the
      known ones are unaffected. */
  lemma AddKeepsInverse(m: Table, says: Table, keys: set<string>, id: string)
    requires Inverse(m, says)
    ensures Inverse(AddRoutes(m, keys, id), if id in says then says[id := says[id] + keys] else says)
  {
    forall i, k | i in says ensures i in Members(AddRoutes(m, keys, id), k) <==> i in Members(m, k) || (i == id && k in keys) {}
  }

  /** A new connection may join under `keys` if nothing leaked to its id before. */
  lemma RegisterKeepsInverse(m: Table, says: Table, keys: set<string>, id: string)
    requires Inverse(m, says) && id !in says && forall k :: id !in Members(m, k)
    ensures Inverse(AddRoutes(m, keys, id), says[id := keys])
  {
    forall i, k ensures i in Members(AddRoutes(m, keys, id), k) <==> i in Members(m, k) || (i == id && k in keys) {}
  }

  lemma JoinKeepsInverse(m: Table, says: Table, id: string)
    ensures (Inverse(m, says) && id !in says && forall k :: id !in Members(m, k)) ==> Inverse(m, says[id := {}])
  {}

  lemma RemoveKeepsInverse(m: Table, says: Table, keys: set<string>, id: string)
    requires Inverse(m, says)
    ensures Inverse(DropAll(m, keys, id), if id in says then says[id := says[id] - keys] else says)
  {
    var r := DropAll(m, keys, id);
    forall i, k | i in says ensures i in Members(r, k) <==> i in Members(m, k) && !(i == id && k in keys) {}
  }

  /** A connection that leaves every key it is under is in no route any more. */
  lemma UnregisterKeepsInverse(m: Table, says: Table, id: string)
    requires Inverse(m, says) && id in says
    ensures Inverse(DropAll(m, says[id], id), says - {id})
    ensures forall k :: id !in Members(DropAll(m, says[id], id), k)
    ensures NoLeak(m, says.Keys) ==> NoLeak(DropAll(m, says[id], id), says.Keys - {id})
  {
    RemoveKeepsInverse(m, says, says[id], id);
    var r := DropAll(m, says[id], id);
    forall k ensures Members(r, k) <= Members(m, k) {}
  }

  lemma RemoveKeepsNoLeak(m: Table, keys: set<string>, id: string, ids: set<string>)
    requires NoLeak(m, ids)
    ensures NoLeak(DropAll(m, keys, id), ids)
  {
    forall k ensures Members(DropAll(m, keys, id), k) <= Members(m, k) {}
  }

  /** Routing to a connection leaks exactly when the connection is not known and something is routed. */
  lemma AddLeaksIff(m: Table, keys: set<string>, id: string, ids: set<string>)
    requires NoLeak(m, ids)
    ensures NoLeak(AddRoutes(m, keys, id), ids) <==> id in ids || keys == {}
  {
    var r := AddRoutes(m, keys, id);
    if id !in ids && keys != {} {
      var k :| k in keys;
      assert id in Members(r, k);
    } else {
      forall k, i | i in Members(r, k) ensures i in ids {
        assert i in Members(m, k) || (i == id && k in keys);
      }
    }
  }

  lemma RemoveKeepsBounded(m: Table, keys: set<string>, id: string, limit: nat)
    ensures Bounded(m, limit) ==> Bounded(DropAll(m, keys, id), limit)
  {}

  lemma AddKeepsBounded(m: Table, k: string, id: string, limit: nat)
    requires Bounded(m, limit) && |Members(m, k)| < limit
    ensures Bounded(AddRoutes(m, {k}, id), limit)
  {
    assert |Members(m, k) + {id}| <= |Members(m, k)| + 1;
  }

  // --- The context's side of the same loops.

  lemma SubscribeNone(s: Session, snapshotLoading: bool)
    ensures Subscribe(s, {}, snapshotLoading) == s
  {
    assert s.subscribed + {} == s.subscribed && s.loading + {} == s.loading;
    assert Subscribe(s, {}, snapshotLoading).buffers == s.buffers;
  }

  /** One round of the subscribe loop. */
  function SubscribeOne(s: Session, a: string, snapshotLoading: bool): Session {
    if snapshotLoading then
      s.(subscribed := s.subscribed + {a}, loading := s.loading + {a},
         buffers := if a in s.buffers then s.buffers else s.buffers[a := []])
    else s.(subscribed := s.subscribed + {a})
  }

  lemma SubscribeRound(s: Session, done: set<string>, a: string, snapshotLoading: bool)
    ensures Subscribe(s, done + {a}, snapshotLoading) == SubscribeOne(Subscribe(s, done, snapshotLoading), a, snapshotLoading)
  {
    assert s.subscribed + (done + {a}) == (s.subscribed + done) + {a};
    if snapshotLoading {
      assert s.loading + (done + {a}) == (s.loading + done) + {a};
      BuffersRound(s, done, a);
    }
  }

  lemma BuffersRound(s: Session, done: set<string>, a: string)
    ensures var t := Subscribe(s, done, true).buffers;
      Subscribe(s, done + {a}, true).buffers == if a in t then t else t[a := []]
  {
    var t := Subscribe(s, done, true).buffers;
    var x, y := Subscribe(s, done + {a}, true).buffers, if a in t then t else t[a := []];
    assert x.Keys == s.buffers.Keys + (done + {a}) == y.Keys;
    forall k | k in x ensures x[k] == y[k] {}
  }

  lemma UnsubscribeStep(s: Session, done: set<string>, a: string)
    ensures Unsubscribe(Unsubscribe(s, done), {a}) == Unsubscribe(s, done + {a})
    ensures Unsubscribe(s, {}) == s
  {
    assert s.subscribed - {} == s.subscribed && s.loading - {} == s.loading;
    assert s.buffers - {} == s.buffers && s.last - {} == s.last;
    assert (s.subscribed - done) - {a} == s.subscribed - (done + {a});
    assert (s.loading - done) - {a} == s.loading - (done + {a});
    assert (s.buffers - done) - {a} == s.buffers - (done + {a});
    assert (s.last - done) - {a} == s.last - (done + {a});
  }
}

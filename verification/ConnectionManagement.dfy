/** The gateway's connection manager. Each method is proved to perform the connection transition of
    module Delivery and to keep the routing tables the inverse of the connections' subscriptions: a loop over
    accounts, buffered events or routed connections is shown to do what the specification does for all of
    them, and what it leaves alone is stated. */
module ConnectionManagement {
  import opened StreamOrder
  import opened Delivery
  import opened RoutingTables
  import opened SetTables

  class ConnectionContext {
    const connectionId: string
    const userId: string
    const queueSize: nat
    var closing: bool
    var subscribedAccountIds: set<string>
    var snapshotLoadingAccounts: set<string>
    var snapshotBuffers: map<string, seq<Envelope>>
    var lastVersions: map<string, StreamId>
    var sendQueue: seq<Frame>

    constructor (connectionId: string, userId: string, queueSize: nat)
      ensures this.connectionId == connectionId && this.userId == userId && this.queueSize == queueSize
      ensures State() == FRESH
    {
      this.connectionId, this.userId, this.queueSize := connectionId, userId, queueSize;
      closing, subscribedAccountIds, snapshotLoadingAccounts := false, {}, {};
      snapshotBuffers, lastVersions, sendQueue := map[], map[], [];
    }

    ghost function State(): Session
      reads this
    {
      Session(closing, subscribedAccountIds, snapshotLoadingAccounts, snapshotBuffers, lastVersions, sendQueue)
    }
  }

  class ConnectionManager {
    const maxConnectionsPerUser: nat
    const snapshotBufferSize: nat
    var connectionsById: map<string, ConnectionContext>
    var connectionsByUser: Table
    var connectionsByAccount: Table

    constructor (maxConnectionsPerUser: nat, snapshotBufferSize: nat)
      requires maxConnectionsPerUser > 0
      ensures this.maxConnectionsPerUser == maxConnectionsPerUser && this.snapshotBufferSize == snapshotBufferSize
      ensures connectionsById == map[] && connectionsByUser == map[] && connectionsByAccount == map[]
      ensures Valid() && NoLeakedRoutes()
    {
      this.maxConnectionsPerUser, this.snapshotBufferSize := maxConnectionsPerUser, snapshotBufferSize;
      connectionsById, connectionsByUser, connectionsByAccount := map[], map[], map[];
    }

    function LimitsOf(context: ConnectionContext): Limits {
      Limits(context.queueSize, snapshotBufferSize)
    }

    predicate Registered(context: ConnectionContext)
      reads this
    {
      context.connectionId in connectionsById && connectionsById[context.connectionId] == context
    }

    /** What each registered connection subscribes to, and whose it is. */
    ghost function Subscriptions(): Table
      reads this, connectionsById.Values
    {
      map id | id in connectionsById :: connectionsById[id].subscribedAccountIds
    }

    ghost function Owners(): Table
      reads this
    {
      map id | id in connectionsById :: {connectionsById[id].userId}
    }

    ghost predicate ContextValid(id: string, c: ConnectionContext)
      reads c
    {
      c.connectionId == id && !c.closing && WellFormed(c.State(), LimitsOf(c))
    }

    ghost predicate ContextsValid()
      reads this, connectionsById.Values
    {
      forall id :: id in connectionsById ==> ContextValid(id, connectionsById[id])
    }

    ghost predicate UsersValid()
      reads this
    {
      && Inverse(connectionsByUser, Owners())
      && NoLeak(connectionsByUser, connectionsById.Keys)
      && Bounded(connectionsByUser, maxConnectionsPerUser)
    }

    /** Kept by every method, with no assumption on the order of calls: every registered connection is
        open and within its limits, and both tables are exact for it. */
    ghost predicate Valid()
      reads this, connectionsById.Values
    {
      && maxConnectionsPerUser > 0
      && ContextsValid()
      && UsersValid()
      && Inverse(connectionsByAccount, Subscriptions())
    }

    /** No account is routed to a connection that is no longer registered. */
    ghost predicate NoLeakedRoutes()
      reads this
    {
      NoLeak(connectionsByAccount, connectionsById.Keys)
    }

    /** No account is routed to this connection. */
    ghost predicate Unrouted(id: string)
      reads this
    {
      forall a :: id !in Members(connectionsByAccount, a)
    }

    /** A context the handler may pass: it is registered, or it has been closed. */
    ghost predicate Known(context: ConnectionContext)
      reads this, context
    {
      if context.closing then context.connectionId !in connectionsById else Registered(context)
    }

    /** A method that changed at most one context and the account table, in step with each other, has
        kept everything. */
    twostate lemma ContextStep(context: ConnectionContext)
      requires old(Valid())
      requires connectionsById == old(connectionsById) && connectionsByUser == old(connectionsByUser)
      requires forall id :: id in connectionsById && connectionsById[id] != context ==> unchanged(connectionsById[id])
      requires Registered(context) ==> !context.closing && WellFormed(context.State(), LimitsOf(context))
      requires var says := old(Subscriptions());
        Inverse(connectionsByAccount, if Registered(context) then says[context.connectionId := context.subscribedAccountIds] else says)
      ensures Valid()
    {
      ContextsKept(context);
      SubscriptionsAfter(context);
      assert Owners() == old(Owners());
      assert UsersValid();
    }

    twostate lemma ContextsKept(context: ConnectionContext)
      requires old(ContextsValid())
      requires connectionsById == old(connectionsById)
      requires forall id :: id in connectionsById && connectionsById[id] != context ==> unchanged(connectionsById[id])
      requires Registered(context) ==> !context.closing && WellFormed(context.State(), LimitsOf(context))
      ensures ContextsValid()
    {
      forall id | id in connectionsById ensures ContextValid(id, connectionsById[id]) {
        assert old(ContextValid(id, connectionsById[id]));
      }
    }

    twostate lemma SubscriptionsAfter(context: ConnectionContext)
      requires old(ContextsValid())
      requires connectionsById == old(connectionsById)
      requires forall id :: id in connectionsById && connectionsById[id] != context ==> unchanged(connectionsById[id])
      ensures Subscriptions() == if Registered(context)
        then old(Subscriptions())[context.connectionId := context.subscribedAccountIds] else old(Subscriptions())
    {
      forall id | id in connectionsById && connectionsById[id] == context ensures id == context.connectionId {
        assert old(ContextValid(id, connectionsById[id]));
      }
    }

    /** Joining: a fresh context and its user's entry, nothing else. */
    twostate predicate Joined(context: ConnectionContext)
      reads this, connectionsById.Values, context
    {
      && old(Valid()) && old(Unrouted(context.connectionId))
      && context.State() == FRESH && context.connectionId !in old(connectionsById)
      && connectionsById == old(connectionsById)[context.connectionId := context]
      && connectionsByAccount == old(connectionsByAccount)
      && connectionsByUser == AddRoutes(old(connectionsByUser), {context.userId}, context.connectionId)
      && |Members(old(connectionsByUser), context.userId)| < maxConnectionsPerUser
      && forall id :: id in connectionsById && connectionsById[id] != context ==> unchanged(connectionsById[id])
    }

    twostate lemma JoinKeepsContexts(context: ConnectionContext)
      requires Joined(context)
      ensures ContextsValid()
    {
      assert ContextValid(context.connectionId, context);
    }

    twostate lemma JoinKeepsRoutes(context: ConnectionContext)
      requires Joined(context)
      ensures Inverse(connectionsByAccount, Subscriptions())
      ensures old(NoLeakedRoutes()) ==> NoLeakedRoutes()
    {
      var subscriptions := old(Subscriptions());
      assert subscriptions.Keys == old(connectionsById).Keys;
      JoinKeepsInverse(connectionsByAccount, subscriptions, context.connectionId);
      assert Subscriptions() == subscriptions[context.connectionId := {}];
    }

    twostate lemma JoinKeepsUsers(context: ConnectionContext)
      requires Joined(context)
      ensures UsersValid()
    {
      var id, owners := context.connectionId, old(Owners());
      RegisterKeepsInverse(old(connectionsByUser), owners, {context.userId}, id);
      AddLeaksIff(old(connectionsByUser), {context.userId}, id, connectionsById.Keys);
      AddKeepsBounded(old(connectionsByUser), context.userId, id, maxConnectionsPerUser);
      assert Owners() == owners[id := {context.userId}];
    }

    /** Leaving: a registered context, its user's entry and its routes, nothing else. */
    twostate lemma CloseStep(context: ConnectionContext)
      requires old(Valid()) && old(Registered(context))
      requires connectionsById == old(connectionsById) - {context.connectionId}
      requires connectionsByUser == DropAll(old(connectionsByUser), {context.userId}, context.connectionId)
      requires connectionsByAccount == DropAll(old(connectionsByAccount), old(context.subscribedAccountIds), context.connectionId)
      requires forall id :: id in connectionsById ==> unchanged(connectionsById[id])
      ensures Valid()
      ensures Unrouted(context.connectionId)
      ensures old(NoLeakedRoutes()) ==> NoLeakedRoutes()
    {
      var id, subscriptions, owners := context.connectionId, old(Subscriptions()), old(Owners());
      UnregisterKeepsInverse(old(connectionsByAccount), subscriptions, id);
      UnregisterKeepsInverse(old(connectionsByUser), owners, id);
      RemoveKeepsBounded(old(connectionsByUser), owners[id], id, maxConnectionsPerUser);
      assert Subscriptions() == subscriptions - {id};
      assert Owners() == owners - {id};
      assert subscriptions.Keys - {id} == connectionsById.Keys && owners.Keys - {id} == connectionsById.Keys;
    }

    /** The id is new: a connection takes a fresh one. */
    method Register(context: ConnectionContext) returns (accepted: bool)
      requires Valid() && Unrouted(context.connectionId)
      requires context.State() == FRESH && context.connectionId !in connectionsById
      modifies this
      ensures Valid() && (old(NoLeakedRoutes()) ==> NoLeakedRoutes())
      ensures accepted <==> |Members(old(connectionsByUser), context.userId)| < maxConnectionsPerUser
      ensures connectionsByAccount == old(connectionsByAccount)
      ensures connectionsById == if accepted then old(connectionsById)[context.connectionId := context] else old(connectionsById)
    {
      var userConnections := Members(connectionsByUser, context.userId);
      if |userConnections| >= maxConnectionsPerUser {
        return false;
      }
      RouteNone(connectionsByUser, context.connectionId);
      RouteOne(connectionsByUser, {}, context.userId, context.connectionId);
      connectionsById := connectionsById[context.connectionId := context];
      connectionsByUser := connectionsByUser[context.userId := userConnections + {context.connectionId}];
      JoinKeepsContexts(context);
      JoinKeepsRoutes(context);
      JoinKeepsUsers(context);
      return true;
    }

    /** Routes first, then loading starts. On an open connection the tables stay exact; on a connection
        closed while its authorisation was being checked, exactly the requested routes leak. */
    method Subscribe(context: ConnectionContext, accountIds: set<string>, snapshotLoading: bool)
      requires Valid() && Known(context)
      modifies this, context
      ensures context.State() == Delivery.Subscribe(old(context.State()), accountIds, snapshotLoading)
      ensures connectionsById == old(connectionsById) && connectionsByUser == old(connectionsByUser)
      ensures connectionsByAccount == AddRoutes(old(connectionsByAccount), accountIds, context.connectionId)
      ensures Valid() && Known(context)
      ensures old(NoLeakedRoutes()) ==> (NoLeakedRoutes() <==> !context.closing || accountIds == {})
    {
      ghost var id, subscriptions := context.connectionId, Subscriptions();
      AddKeepsInverse(connectionsByAccount, subscriptions, accountIds, id);
      if NoLeakedRoutes() {
        AddLeaksIff(connectionsByAccount, accountIds, id, connectionsById.Keys);
      }
      SubscribeLoop(context, accountIds, snapshotLoading);
      if !context.closing {
        SubscribeWellFormed(old(context.State()), accountIds, snapshotLoading, LimitsOf(context));
      }
      ContextStep(context);
    }

    method SubscribeLoop(context: ConnectionContext, accountIds: set<string>, snapshotLoading: bool)
      modifies this`connectionsByAccount, context`subscribedAccountIds, context`snapshotLoadingAccounts, context`snapshotBuffers
      ensures context.State() == Delivery.Subscribe(old(context.State()), accountIds, snapshotLoading)
      ensures connectionsByAccount == AddRoutes(old(connectionsByAccount), accountIds, context.connectionId)
    {
      var remaining := accountIds;
      ghost var done := {};
      RouteNone(connectionsByAccount, context.connectionId);
      SubscribeNone(context.State(), snapshotLoading);
      while remaining != {}
        invariant done + remaining == accountIds
        invariant context.State() == Delivery.Subscribe(old(context.State()), done, snapshotLoading)
        invariant connectionsByAccount == AddRoutes(old(connectionsByAccount), done, context.connectionId)
      {
        var accountId :| accountId in remaining;
        SubscribeRound(old(context.State()), done, accountId, snapshotLoading);
        RouteOne(old(connectionsByAccount), done, accountId, context.connectionId);
        SubscribeAccount(context, accountId, snapshotLoading);
        remaining, done := remaining - {accountId}, done + {accountId};
      }
    }

    method SubscribeAccount(context: ConnectionContext, accountId: string, snapshotLoading: bool)
      modifies this`connectionsByAccount, context`subscribedAccountIds, context`snapshotLoadingAccounts, context`snapshotBuffers
      ensures context.State() == SubscribeOne(old(context.State()), accountId, snapshotLoading)
      ensures connectionsByAccount
           == old(connectionsByAccount)[accountId := Members(old(connectionsByAccount), accountId) + {context.connectionId}]
    {
      context.subscribedAccountIds := context.subscribedAccountIds + {accountId};
      connectionsByAccount := connectionsByAccount[accountId := Members(connectionsByAccount, accountId) + {context.connectionId}];
      if snapshotLoading {
        context.snapshotLoadingAccounts := context.snapshotLoadingAccounts + {accountId};
        if accountId !in context.snapshotBuffers {
          context.snapshotBuffers := context.snapshotBuffers[accountId := []];
        }
      }
    }

    method Unsubscribe(context: ConnectionContext, accountIds: set<string>)
      requires Valid() && Known(context)
      modifies this, context
      ensures context.State() == Delivery.Unsubscribe(old(context.State()), accountIds)
      ensures connectionsById == old(connectionsById) && connectionsByUser == old(connectionsByUser)
      ensures connectionsByAccount == DropAll(old(connectionsByAccount), accountIds, context.connectionId)
      ensures Valid() && Known(context)
      ensures old(NoLeakedRoutes()) ==> NoLeakedRoutes()
    {
      ghost var id, subscriptions := context.connectionId, Subscriptions();
      RemoveKeepsInverse(connectionsByAccount, subscriptions, accountIds, id);
      if NoLeakedRoutes() {
        RemoveKeepsNoLeak(connectionsByAccount, accountIds, id, connectionsById.Keys);
      }
      UnsubscribeLoop(context, accountIds);
      if !context.closing {
        UnsubscribeWellFormed(old(context.State()), accountIds, LimitsOf(context));
      }
      ContextStep(context);
    }

    /** The loop of Unsubscribe, which Close also runs on a context it has just unregistered. */
    method UnsubscribeLoop(context: ConnectionContext, accountIds: set<string>)
      requires NoEmpty(connectionsByAccount)
      modifies this`connectionsByAccount, context`subscribedAccountIds, context`snapshotLoadingAccounts,
               context`snapshotBuffers, context`lastVersions
      ensures context.State() == Delivery.Unsubscribe(old(context.State()), accountIds)
      ensures connectionsByAccount == DropAll(old(connectionsByAccount), accountIds, context.connectionId)
    {
      var remaining := accountIds;
      ghost var done := {};
      assert DropAll(connectionsByAccount, {}, context.connectionId) == connectionsByAccount;
      UnsubscribeStep(context.State(), {}, "");
      while remaining != {}
        invariant done + remaining == accountIds && done !! remaining
        invariant context.State() == Delivery.Unsubscribe(old(context.State()), done)
        invariant connectionsByAccount == DropAll(old(connectionsByAccount), done, context.connectionId)
      {
        var accountId :| accountId in remaining;
        UnsubscribeStep(old(context.State()), done, accountId);
        RemoveRoutesStep(old(connectionsByAccount), done, accountId, context.connectionId);
        context.subscribedAccountIds := context.subscribedAccountIds - {accountId};
        context.snapshotLoadingAccounts := context.snapshotLoadingAccounts - {accountId};
        context.snapshotBuffers := context.snapshotBuffers - {accountId};
        context.lastVersions := context.lastVersions - {accountId};
        DiscardIsRemove(connectionsByAccount, accountId, context.connectionId);
        if accountId in connectionsByAccount {
          var connectionIds := connectionsByAccount[accountId] - {context.connectionId};
          connectionsByAccount := if connectionIds == {} then connectionsByAccount - {accountId}
                                  else connectionsByAccount[accountId := connectionIds];
        }
        remaining, done := remaining - {accountId}, done + {accountId};
      }
    }

    /** Idempotent: a second call changes nothing. */
    method Close(context: ConnectionContext)
      requires Valid() && Known(context)
      modifies this, context
      ensures context.State() == Delivery.Close(old(context.State())) && context.closing
      ensures connectionsById == old(connectionsById) - {context.connectionId}
      ensures old(context.closing) ==>
        connectionsByUser == old(connectionsByUser) && connectionsByAccount == old(connectionsByAccount)
      ensures Valid() && Known(context)
      ensures !old(context.closing) ==> forall a :: context.connectionId !in Members(connectionsByAccount, a)
      ensures old(NoLeakedRoutes()) ==> NoLeakedRoutes()
    {
      if context.closing {
        return;
      }
      DiscardIsRemove(connectionsByUser, context.userId, context.connectionId);
      context.closing := true;
      connectionsById := connectionsById - {context.connectionId};
      if context.userId in connectionsByUser {
        var userConnections := connectionsByUser[context.userId] - {context.connectionId};
        connectionsByUser := if userConnections == {} then connectionsByUser - {context.userId}
                             else connectionsByUser[context.userId := userConnections];
      }
      UnsubscribeLoop(context, context.subscribedAccountIds);
      context.sendQueue := [];
      CloseStep(context);
    }

    /** Everything stays valid; the context leaves the tables exactly if it was closed. */
    twostate predicate Kept(context: ConnectionContext)
      reads this, connectionsById.Values, context
    {
      KeptFrom(context, old(connectionsById), old(NoLeakedRoutes()))
    }

    ghost predicate KeptFrom(context: ConnectionContext, byId: map<string, ConnectionContext>, exact: bool)
      reads this, connectionsById.Values, context
    {
      && Valid() && Known(context)
      && connectionsById == (if context.closing then byId - {context.connectionId} else byId)
      && (exact ==> NoLeakedRoutes())
    }

    /** Non-blocking put; a full queue closes the connection. */
    method Enqueue(context: ConnectionContext, frame: Frame) returns (queued: bool)
      requires Valid() && Known(context)
      modifies this, context
      ensures (context.State(), queued) == Delivery.Enqueue(old(context.State()), frame, LimitsOf(context))
      ensures Kept(context)
    {
      if context.closing {
        return false;
      }
      if |context.sendQueue| < context.queueSize {
        context.sendQueue := context.sendQueue + [frame];
        SameSubscriptions(context);
        return true;
      }
      Close(context);
      return false;
    }

    /** A registered context changed, but not what it subscribes to. */
    twostate lemma SameSubscriptions(context: ConnectionContext)
      requires old(Valid()) && Registered(context)
      requires connectionsById == old(connectionsById) && connectionsByUser == old(connectionsByUser)
      requires connectionsByAccount == old(connectionsByAccount)
      requires forall id :: id in connectionsById && connectionsById[id] != context ==> unchanged(connectionsById[id])
      requires !context.closing && WellFormed(context.State(), LimitsOf(context))
      requires context.subscribedAccountIds == old(context.subscribedAccountIds)
      ensures Valid()
    {
      var says := old(Subscriptions());
      assert says[context.connectionId := context.subscribedAccountIds] == says;
      ContextStep(context);
    }

    /** One connection's round of the broadcast loop. */
    method DeliverTo(context: ConnectionContext, envelope: Envelope) returns (queued: bool)
      requires Valid() && Registered(context)
      modifies this, context
      ensures (context.State(), queued) == Deliver(old(context.State()), envelope, LimitsOf(context))
      ensures Kept(context)
    {
      var accountId := envelope.accountId;
      assert ContextValid(context.connectionId, context);
      if accountId !in context.subscribedAccountIds {
        return false;
      }
      DeliverWellFormed(context.State(), envelope, LimitsOf(context));
      if accountId in context.snapshotLoadingAccounts {
        var buffer := if accountId in context.snapshotBuffers then context.snapshotBuffers[accountId] else [];
        if |buffer| >= snapshotBufferSize {
          Close(context);
          return false;
        }
        context.snapshotBuffers := context.snapshotBuffers[accountId := buffer + [envelope]];
        SameSubscriptions(context);
        return false;
      }
      var current := if accountId in context.lastVersions then context.lastVersions[accountId] else ORIGIN;
      if AtMost(envelope.version, current) {
        return false;
      }
      queued := Enqueue(context, EventFrame(envelope));
      if queued {
        label queuedEvent:
        context.lastVersions := context.lastVersions[accountId := envelope.version];
        SameSubscriptions@queuedEvent(context);
      }
    }

    /** Connection `c`, in state `s` before the broadcast, has been reached by it or not yet. */
    ghost predicate Reached(id: string, s: Session, c: ConnectionContext, done: bool, envelope: Envelope)
      reads this, c
    {
      c.State() == (if done then Deliver(s, envelope, LimitsOf(c)).0 else s) && (id in connectionsById <==> !c.closing)
    }

    /** The broadcast so far: the connections in `done` have been reached, the others are untouched. */
    ghost predicate Broadcasting(byId: map<string, ConnectionContext>, before: map<string, Session>, done: set<string>, envelope: Envelope)
      reads this, byId.Values
    {
      && before.Keys == byId.Keys
      && (forall id :: id in connectionsById ==> id in byId && connectionsById[id] == byId[id])
      && (forall id :: id in byId ==> byId[id].connectionId == id && !before[id].closing && Reached(id, before[id], byId[id], id in done, envelope))
    }

    /** The connections that had the event queued. */
    ghost function Queued(byId: map<string, ConnectionContext>, before: map<string, Session>, done: set<string>, envelope: Envelope): set<string>
      requires before.Keys == byId.Keys
    {
      set id | id in done && id in before && Deliver(before[id], envelope, LimitsOf(byId[id])).1
    }

    method BroadcastRound(connectionId: string, envelope: Envelope, ghost byId: map<string, ConnectionContext>,
                          ghost before: map<string, Session>, ghost done: set<string>) returns (queued: bool)
      requires Valid() && Broadcasting(byId, before, done, envelope) && connectionId !in done
      modifies this, byId.Values
      ensures Valid() && Broadcasting(byId, before, done + {connectionId}, envelope)
      ensures old(NoLeakedRoutes()) ==> NoLeakedRoutes()
      ensures |Queued(byId, before, done + {connectionId}, envelope)|
           == |Queued(byId, before, done, envelope)| + (if queued then 1 else 0)
    {
      if connectionId !in connectionsById {
        assert connectionId !in byId;
        assert forall i :: i in byId ==> (i in done + {connectionId} <==> i in done);
        QueuedOneMore(byId, before, done, envelope, connectionId);
        return false;
      }
      var context := connectionsById[connectionId];
      assert Reached(connectionId, before[connectionId], context, false, envelope);
      assert ContextValid(connectionId, context);
      queued := DeliverTo(context, envelope);
      forall i | i in byId ensures Reached(i, before[i], byId[i], i in done + {connectionId}, envelope) {
        assert old(Reached(i, before[i], byId[i], i in done, envelope));
        assert i != connectionId ==> byId[i] != context && unchanged(byId[i]);
      }
      QueuedOneMore(byId, before, done, envelope, connectionId);
    }

    lemma QueuedOneMore(byId: map<string, ConnectionContext>, before: map<string, Session>, done: set<string>, envelope: Envelope, id: string)
      requires before.Keys == byId.Keys && id !in done
      ensures |Queued(byId, before, done + {id}, envelope)|
           == |Queued(byId, before, done, envelope)|
              + (if id in byId && Deliver(before[id], envelope, LimitsOf(byId[id])).1 then 1 else 0)
    {
      assert Queued(byId, before, done + {id}, envelope)
          == Queued(byId, before, done, envelope)
             + if id in byId && Deliver(before[id], envelope, LimitsOf(byId[id])).1 then {id} else {};
    }

    /** The event reaches every connection subscribed to its account exactly as Deliver says; a connection
        it overflows is closed and leaves the tables, the others stay. */
    method BroadcastToAccount(envelope: Envelope) returns (sent: nat)
      requires Valid()
      modifies this, connectionsById.Values
      ensures Valid()
      ensures old(NoLeakedRoutes()) ==> NoLeakedRoutes()
      ensures Broadcasting(old(connectionsById), old(States()), if envelope.accountId == "" then {} else old(connectionsById).Keys, envelope)
      ensures sent == |Queued(old(connectionsById), old(States()), if envelope.accountId == "" then {} else old(connectionsById).Keys, envelope)|
    {
      sent := 0;
      ghost var byId, before := connectionsById, States();
      assert forall id :: id in connectionsById ==> ContextValid(id, connectionsById[id]);
      if envelope.accountId == "" {
        return;
      }
      RoutedBySubscription(envelope.accountId);
      ghost var routed := Members(connectionsByAccount, envelope.accountId);
      sent := BroadcastLoop(Members(connectionsByAccount, envelope.accountId), envelope, byId, before);
      BroadcastReachedAll(byId, before, routed, envelope);
    }

    /** The loop over a copy of the account's routes. */
    method BroadcastLoop(routed: set<string>, envelope: Envelope, ghost byId: map<string, ConnectionContext>,
                         ghost before: map<string, Session>) returns (sent: nat)
      requires Valid() && Broadcasting(byId, before, {}, envelope)
      modifies this, byId.Values
      ensures Valid() && Broadcasting(byId, before, routed, envelope)
      ensures old(NoLeakedRoutes()) ==> NoLeakedRoutes()
      ensures sent == |Queued(byId, before, routed, envelope)|
    {
      sent := 0;
      var remaining := routed;
      ghost var exact := NoLeakedRoutes();
      assert Queued(byId, before, {}, envelope) == {};
      while remaining != {}
        invariant remaining <= routed
        invariant Valid() && (exact ==> NoLeakedRoutes())
        invariant Broadcasting(byId, before, routed - remaining, envelope)
        invariant sent == |Queued(byId, before, routed - remaining, envelope)|
      {
        var connectionId :| connectionId in remaining;
        var queued := BroadcastRound(connectionId, envelope, byId, before, routed - remaining);
        OneFewer(routed, remaining, connectionId);
        if queued {
          sent := sent + 1;
        }
        remaining := remaining - {connectionId};
      }
      assert routed - {} == routed;
    }

    lemma OneFewer(all: set<string>, remaining: set<string>, x: string)
      requires x in remaining && remaining <= all
      ensures (all - remaining) + {x} == all - (remaining - {x})
    {}

    lemma RoutedBySubscription(a: string)
      requires Valid()
      ensures forall id :: id in States() && id !in Members(connectionsByAccount, a) ==> a !in States()[id].subscribed
    {
      forall id | id in States() && id !in Members(connectionsByAccount, a) ensures a !in States()[id].subscribed {
        assert id in Subscriptions() && Subscriptions()[id] == States()[id].subscribed;
      }
    }

    /** A connection that is not routed to would not have taken the event. */
    lemma BroadcastReachedAll(byId: map<string, ConnectionContext>, before: map<string, Session>, done: set<string>, envelope: Envelope)
      requires Broadcasting(byId, before, done, envelope)
      requires forall id :: id in before && id !in done ==> envelope.accountId !in before[id].subscribed
      ensures Broadcasting(byId, before, byId.Keys, envelope)
      ensures Queued(byId, before, byId.Keys, envelope) == Queued(byId, before, done, envelope)
    {
      forall id | id in byId ensures Reached(id, before[id], byId[id], true, envelope) {
        assert Reached(id, before[id], byId[id], id in done, envelope);
      }
    }

    ghost function States(): map<string, Session>
      reads this, connectionsById.Values
    {
      map id | id in connectionsById :: connectionsById[id].State()
    }

    /** The snapshot first, then the buffered events it does not cover, account by account; `accountIds` is
        the requested set in its iteration order. */
    method FinishSnapshot(context: ConnectionContext, accountIds: seq<string>, cursor: StreamId, snapshot: Frame)
      requires Valid() && Known(context)
      modifies this, context
      ensures context.State() == Delivery.FinishSnapshot(old(context.State()), accountIds, cursor, snapshot, LimitsOf(context))
      ensures Kept(context)
    {
      var queued := Enqueue(context, snapshot);
      if queued {
        FinishAccounts(context, accountIds, cursor);
      }
    }

    method FinishAccounts(context: ConnectionContext, accountIds: seq<string>, cursor: StreamId)
      requires Valid() && Known(context)
      modifies this, context
      ensures context.State() == FlushAccounts(old(context.State()), accountIds, cursor, LimitsOf(context))
      ensures Kept(context)
    {
      ghost var byId, exact, session := connectionsById, NoLeakedRoutes(), context.State();
      for i := 0 to |accountIds|
        invariant context.State() == FlushAccounts(session, accountIds[..i], cursor, LimitsOf(context))
        invariant KeptFrom(context, byId, exact)
      {
        FlushAccountsStep(session, accountIds, i, cursor, LimitsOf(context));
        FinishNext(context, accountIds[i], cursor, byId, exact);
      }
      assert accountIds[..|accountIds|] == accountIds;
    }

    /** One round of that loop, and what has been kept since before it. */
    method FinishNext(context: ConnectionContext, accountId: string, cursor: StreamId,
                      ghost byId: map<string, ConnectionContext>, ghost exact: bool)
      requires KeptFrom(context, byId, exact)
      modifies this, context
      ensures KeptFrom(context, byId, exact)
      ensures context.State() == FlushAccount(old(context.State()), accountId, cursor, LimitsOf(context))
    {
      ghost var before, closed := connectionsById, context.closing;
      FinishAccount(context, accountId, cursor);
      assert closed ==> context.closing by {
        assert closed ==> context.connectionId !in before && context.connectionId !in connectionsById;
      }
      LeftOnce(byId, before, connectionsById, context.connectionId, closed, context.closing);
    }

    /** A connection leaves the table once. */
    lemma LeftOnce(first: map<string, ConnectionContext>, second: map<string, ConnectionContext>,
                   third: map<string, ConnectionContext>, id: string, before: bool, after: bool)
      requires second == (if before then first - {id} else first) && third == if after then second - {id} else second
      requires before ==> after
      ensures third == if after then first - {id} else first
    {}

    method FinishAccount(context: ConnectionContext, accountId: string, cursor: StreamId)
      requires Valid() && Known(context)
      modifies this, context
      ensures context.State() == FlushAccount(old(context.State()), accountId, cursor, LimitsOf(context))
      ensures Kept(context)
    {
      var buffered := if accountId in context.snapshotBuffers then context.snapshotBuffers[accountId] else [];
      StopLoadingAccount(context, accountId, cursor);
      FlushBuffer(context, accountId, SortByVersion(buffered), cursor);
    }

    method FlushBuffer(context: ConnectionContext, accountId: string, events: seq<Envelope>, cursor: StreamId)
      requires Valid() && Known(context)
      modifies this, context
      ensures context.State() == FlushEvents(old(context.State()), accountId, events, cursor, LimitsOf(context))
      ensures Kept(context)
    {
      ghost var byId, exact, session := connectionsById, NoLeakedRoutes(), context.State();
      for i := 0 to |events|
        invariant context.State() == FlushEvents(session, accountId, events[..i], cursor, LimitsOf(context))
        invariant KeptFrom(context, byId, exact)
      {
        FlushNext(context, accountId, events, i, cursor, session, byId, exact);
      }
      assert events[..|events|] == events;
    }

    /** One round of that loop. */
    method FlushNext(context: ConnectionContext, accountId: string, events: seq<Envelope>, i: nat, cursor: StreamId,
                     ghost session: Session, ghost byId: map<string, ConnectionContext>, ghost exact: bool)
      requires i < |events| && KeptFrom(context, byId, exact)
      requires context.State() == FlushEvents(session, accountId, events[..i], cursor, LimitsOf(context))
      modifies this, context
      ensures KeptFrom(context, byId, exact)
      ensures context.State() == FlushEvents(session, accountId, events[..i + 1], cursor, LimitsOf(context))
    {
      ghost var before, closed := connectionsById, context.closing;
      FlushEventsStep(session, accountId, events, i, cursor, LimitsOf(context));
      FlushOne(context, accountId, events[i], cursor);
      assert closed ==> context.closing by {
        assert closed ==> context.connectionId !in before && context.connectionId !in connectionsById;
      }
      LeftOnce(byId, before, connectionsById, context.connectionId, closed, context.closing);
    }

    method StopLoadingAccount(context: ConnectionContext, accountId: string, cursor: StreamId)
      requires Valid() && Known(context)
      modifies context
      ensures context.State() == StopLoading(old(context.State()), accountId, cursor)
      ensures Valid() && Known(context)
    {
      context.lastVersions := context.lastVersions[accountId := cursor];
      context.snapshotBuffers := context.snapshotBuffers - {accountId};
      context.snapshotLoadingAccounts := context.snapshotLoadingAccounts - {accountId};
      if context.closing {
        ContextStep(context);
      } else {
        assert old(ContextValid(context.connectionId, context));
        SameSubscriptions(context);
      }
    }

    method FlushOne(context: ConnectionContext, accountId: string, event: Envelope, cursor: StreamId)
      requires Valid() && Known(context)
      modifies this, context
      ensures context.State() == FlushEvent(old(context.State()), accountId, event, cursor, LimitsOf(context))
      ensures Kept(context)
    {
      if !AtMost(event.version, cursor) {
        var queued := Enqueue(context, EventFrame(event));
        if queued {
          label queuedEvent:
          context.lastVersions := context.lastVersions[accountId := event.version];
          SameSubscriptions@queuedEvent(context);
        }
      }
    }

    /** The gateway stops: every connection is closed. */
    method Shutdown()
      requires Valid()
      modifies this, connectionsById.Values
      ensures Valid() && connectionsById == map[]
      ensures old(NoLeakedRoutes()) ==> connectionsByAccount == map[]
      ensures connectionsByUser == map[]
    {
      while connectionsById.Keys != {}
        invariant Valid()
        invariant forall id :: id in connectionsById ==> id in old(connectionsById) && connectionsById[id] == old(connectionsById[id])
        invariant old(NoLeakedRoutes()) ==> NoLeakedRoutes()
        decreases connectionsById.Keys
      {
        var id :| id in connectionsById.Keys;
        assert ContextValid(id, connectionsById[id]);
        Close(connectionsById[id]);
      }
      EmptyTables();
    }

    lemma EmptyTables()
      requires Valid() && connectionsById == map[]
      ensures connectionsByUser == map[] && (NoLeakedRoutes() ==> connectionsByAccount == map[])
    {
      assert connectionsById.Keys == {};
      if NoLeakedRoutes() {
        NobodyRouted(connectionsByAccount);
      }
      NobodyRouted(connectionsByUser);
    }

    lemma NobodyRouted(m: Table)
      requires NoEmpty(m) && NoLeak(m, {})
      ensures m == map[]
    {
      forall k ensures k !in m {
        assert Members(m, k) == {};
      }
    }
  }
}

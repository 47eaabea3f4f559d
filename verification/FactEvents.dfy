/** The consumer of account-fact events marks the PnL store and then the risk queue, each at most once per
    event; a redelivered event takes the duplicate exit. */
module FactEvents {
  import opened Options
  import opened PercentCodec
  import Q = DirtyQueue
  import R = DirtyRelation

  /** `Structure` is a trade or position event, `Fact` any other account fact; the account is stripped. */
  datatype Event =
    | Structure(id: string, exchange: Text, orderBook: Text, account: Text)
    | Fact(id: string, account: Text)

  /** How far one delivery gets before Redis fails: nowhere, past the PnL mark only, or to the end. */
  datatype Reach = Nothing | PnlOnly | Both

  datatype Delivery = Delivery(event: Event, reach: Reach)

  /** The two PnL queues share their event markers; the risk queue has its own. */
  datatype Stores = Stores(contracts: R.Relation, facts: Q.Queue, risk: Q.Queue)

  const EMPTY := Stores(R.EMPTY, Q.EMPTY, Q.EMPTY)

  function MarkPnl(s: Stores, event: Event): Stores {
    match event
    case Structure(id, ex, ob, account) =>
      s.(contracts := R.Next(s.contracts, R.MarkOnce(id, ex, ob, account)),
         facts := Q.Next(Q.ACCOUNT_FACTS, s.facts, Q.Processed(id)))
    case Fact(id, account) =>
      s.(facts := Q.Next(Q.ACCOUNT_FACTS, s.facts, Q.MarkOnce(account, id)),
         contracts := R.Next(s.contracts, R.FactMarked(id)))
  }

  function Process(s: Stores, d: Delivery): Stores {
    if d.reach == Nothing || d.event.id in s.facts.markers then s else
      var marked := MarkPnl(s, d.event);
      if d.reach == PnlOnly then marked
      else marked.(risk := Q.Next(Q.RISK, s.risk, Q.MarkOnce(d.event.account, d.event.id)))
  }

  function Run(deliveries: seq<Delivery>): Stores {
    if deliveries == [] then EMPTY else Process(Run(deliveries[..|deliveries| - 1]), deliveries[|deliveries| - 1])
  }

  /** Delivery `i` is the first of event `id` to reach the PnL store. */
  predicate FirstMark(deliveries: seq<Delivery>, id: string, i: nat)
    requires i < |deliveries|
  {
    deliveries[i].event.id == id && deliveries[i].reach != Nothing
    && forall j :: 0 <= j < i && deliveries[j].event.id == id ==> deliveries[j].reach == Nothing
  }

  /** While no marker expires, the PnL store gets every event that any delivery brings it. */
  lemma {:induction false} PnlMarkedIff(deliveries: seq<Delivery>, id: string)
    ensures id in Run(deliveries).facts.markers <==> exists i :: 0 <= i < |deliveries| && FirstMark(deliveries, id, i)
  {
    if deliveries != [] {
      var n := |deliveries| - 1;
      var front := deliveries[..n];
      PnlMarkedIff(front, id);
      assert forall i :: 0 <= i < n ==> FirstMark(deliveries, id, i) == FirstMark(front, id, i);
      RiskWithinPnl(front);
      LastIsFirst(deliveries, id);
      ProcessMarkers(Run(front), deliveries[n]);
    }
  }

  /** The risk queue gets exactly the events whose first delivery to reach the PnL store also reached the
      risk queue: a failure between the two marks is not repaired by redelivery. */
  lemma {:induction false} RiskMarkedIff(deliveries: seq<Delivery>, id: string)
    ensures id in Run(deliveries).risk.markers
       <==> exists i :: 0 <= i < |deliveries| && FirstMark(deliveries, id, i) && deliveries[i].reach == Both
  {
    if deliveries != [] {
      var n := |deliveries| - 1;
      var front := deliveries[..n];
      RiskMarkedIff(front, id);
      PnlMarkedIff(front, id);
      assert forall i :: 0 <= i < n ==> FirstMark(deliveries, id, i) == FirstMark(front, id, i);
      RiskWithinPnl(front);
      LastIsFirst(deliveries, id);
      ProcessMarkers(Run(front), deliveries[n]);
    }
  }

  lemma ProcessMarkers(s: Stores, d: Delivery)
    requires s.contracts.queue.markers == s.facts.markers
    ensures var t := Process(s, d);
      && t.contracts.queue.markers == t.facts.markers
      && t.facts.markers == (if d.reach == Nothing then s.facts.markers else s.facts.markers + {d.event.id})
      && t.risk.markers == (if d.reach == Both && d.event.id !in s.facts.markers then s.risk.markers + {d.event.id} else s.risk.markers)
  {}

  lemma {:induction false} RiskWithinPnl(deliveries: seq<Delivery>)
    ensures var s := Run(deliveries);
      s.contracts.queue.markers == s.facts.markers && s.risk.markers <= s.facts.markers
  {
    if deliveries != [] {
      RiskWithinPnl(deliveries[..|deliveries| - 1]);
      ProcessMarkers(Run(deliveries[..|deliveries| - 1]), deliveries[|deliveries| - 1]);
    }
  }

  /** The last delivery is the first mark exactly when it reaches and none before it did. */
  lemma {:induction false} LastIsFirst(deliveries: seq<Delivery>, id: string)
    requires deliveries != []
    ensures var n := |deliveries| - 1;
      FirstMark(deliveries, id, n) <==>
        deliveries[n].event.id == id && deliveries[n].reach != Nothing
        && !exists i :: 0 <= i < n && FirstMark(deliveries, id, i)
  {
    var n := |deliveries| - 1;
    if j :| 0 <= j < n && deliveries[j].event.id == id && deliveries[j].reach != Nothing {
      EarliestMark(deliveries, id, j);
    }
  }

  lemma {:induction false} EarliestMark(deliveries: seq<Delivery>, id: string, j: nat)
    requires j < |deliveries| && deliveries[j].event.id == id && deliveries[j].reach != Nothing
    ensures exists i :: 0 <= i <= j && FirstMark(deliveries, id, i)
  {
    if !FirstMark(deliveries, id, j) {
      var k :| 0 <= k < j && deliveries[k].event.id == id && deliveries[k].reach != Nothing;
      EarliestMark(deliveries, id, k);
    }
  }

  /** For instance: the risk mark fails once, the retry exits as a duplicate, the account stays unmarked. */
  lemma FailedRiskMarkIsLost(event: Event)
    ensures var s := Run([Delivery(event, PnlOnly), Delivery(event, Both)]);
      event.id in s.facts.markers && s.risk == Q.EMPTY
  {
    var one := [Delivery(event, PnlOnly)];
    var two := one + [Delivery(event, Both)];
    assert one[..0] == [] && two[..1] == one;
    assert Run(one[..0]) == EMPTY;
    assert Run(one) == Process(EMPTY, Delivery(event, PnlOnly));
    ProcessMarkers(EMPTY, Delivery(event, PnlOnly));
    assert Run(two) == Process(Run(one), Delivery(event, Both));
  }

  // --- What is handed on.

  /** The contract a structure event names. */
  function ContractOf(event: Event): Option<Text> {
    if event.Structure? then Some(ContractMember(event.exchange, event.orderBook)) else None
  }

  /** Delivery `i` is the one that marks its event. */
  ghost predicate HandedOn(deliveries: seq<Delivery>, i: nat) {
    i < |deliveries| && FirstMark(deliveries, deliveries[i].event.id, i)
  }

  /** The risk queue holds exactly the accounts of the events that got as far as it. */
  lemma {:induction false} RiskHolds(deliveries: seq<Delivery>, account: Text)
    ensures account in Run(deliveries).risk.dirty <==>
      exists i: nat :: HandedOn(deliveries, i) && deliveries[i].reach == Both && deliveries[i].event.account == account
  {
    if deliveries != [] {
      var n := |deliveries| - 1;
      RiskHolds(deliveries[..n], account);
      EarlierHandedOn(deliveries);
      LastHandedOn(deliveries);
      RiskWithinPnl(deliveries[..n]);
      ProcessQueues(Run(deliveries[..n]), deliveries[n]);
    }
  }

  /** The account facts hold exactly the accounts of the fact events that got to the PnL store. */
  lemma {:induction false} FactsHold(deliveries: seq<Delivery>, account: Text)
    ensures account in Run(deliveries).facts.dirty <==>
      exists i: nat :: HandedOn(deliveries, i) && deliveries[i].event.Fact? && deliveries[i].event.account == account
  {
    if deliveries != [] {
      var n := |deliveries| - 1;
      FactsHold(deliveries[..n], account);
      EarlierHandedOn(deliveries);
      LastHandedOn(deliveries);
      RiskWithinPnl(deliveries[..n]);
      ProcessQueues(Run(deliveries[..n]), deliveries[n]);
    }
  }

  /** The contracts are exactly those of the structure events that did. */
  lemma {:induction false} ContractsHold(deliveries: seq<Delivery>, contract: Text)
    ensures contract in Run(deliveries).contracts.queue.dirty <==>
      exists i: nat :: HandedOn(deliveries, i) && ContractOf(deliveries[i].event) == Some(contract)
  {
    if deliveries != [] {
      var n := |deliveries| - 1;
      ContractsHold(deliveries[..n], contract);
      EarlierHandedOn(deliveries);
      LastHandedOn(deliveries);
      RiskWithinPnl(deliveries[..n]);
      ProcessQueues(Run(deliveries[..n]), deliveries[n]);
    }
  }

  lemma LastHandedOn(deliveries: seq<Delivery>)
    requires deliveries != []
    ensures var n := |deliveries| - 1;
      HandedOn(deliveries, n) <==>
        deliveries[n].reach != Nothing && deliveries[n].event.id !in Run(deliveries[..n]).facts.markers
  {
    var n := |deliveries| - 1;
    var front, id := deliveries[..n], deliveries[n].event.id;
    PnlMarkedIff(front, id);
    LastIsFirst(deliveries, id);
    assert forall i :: 0 <= i < n ==> FirstMark(deliveries, id, i) == FirstMark(front, id, i);
  }

  lemma EarlierHandedOn(deliveries: seq<Delivery>)
    requires deliveries != []
    ensures forall i: nat :: i != |deliveries| - 1 ==> HandedOn(deliveries, i) == HandedOn(deliveries[..|deliveries| - 1], i)
  {}

  lemma ProcessQueues(s: Stores, d: Delivery)
    requires s.contracts.queue.markers == s.facts.markers && s.risk.markers <= s.facts.markers
    ensures var t, news := Process(s, d), d.reach != Nothing && d.event.id !in s.facts.markers;
      && t.risk.dirty == s.risk.dirty + (if news && d.reach == Both then {d.event.account} else {})
      && t.facts.dirty == s.facts.dirty + (if news && d.event.Fact? then {d.event.account} else {})
      && t.contracts.queue.dirty == s.contracts.queue.dirty + (if news && d.event.Structure? then {ContractOf(d.event).value} else {})
  {}
}

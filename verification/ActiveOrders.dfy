/** The Redis index of active orders: details by order, derived sets per instrument, account and
    underlying, the global set, and the contracts to subscribe to per market domain. */
module ActiveOrders {
  import opened Options
  import opened PercentCodec
  import opened SetTables

  datatype Domain = FuturesMarket | SecuritiesMarket

  /** What never changes about an order. `domain` is absent for an unknown instrument type; `optionType`
      says whether it is a futures or index option, `sellOpen` whether it sells to open. */
  datatype Identity = Identity(
    account: Text,
    exchange: Text,
    symbol: Text,
    orderBook: Text,
    domain: Option<Domain>,
    optionType: bool,
    sellOpen: bool,
    underlyingExchange: Text,
    underlyingSymbol: Text)

  /** `detail` stands for the remaining fields, overwritten together. */
  datatype Order = Order(id: string, identity: Identity, detail: string)

  datatype Index = Index(
    orders: map<string, Order>,
    byInstrument: map<Text, set<string>>,
    byAccount: map<Text, set<string>>,
    byUnderlying: map<Text, set<string>>,
    all: set<string>,
    futures: set<Text>,
    securities: set<Text>,
    processed: set<string>)

  const EMPTY := Index(map[], map[], map[], map[], {}, {}, {}, {})

  /** The key of an instrument's set, from the codes as given. */
  function InstrumentKey(exchange: Text, symbol: Text): Text {
    exchange + [':'] + symbol
  }

  function KeyOf(o: Identity): Text {
    InstrumentKey(o.exchange, o.symbol)
  }

  function MemberOf(o: Identity): Text {
    OrderMember(o.exchange, o.symbol, o.orderBook)
  }

  /** Options sold to open also listen to their underlying. */
  function Underlying(o: Identity): Option<Text> {
    if o.optionType && o.sellOpen && o.underlyingExchange != [] && o.underlyingSymbol != []
    then Some(InstrumentKey(o.underlyingExchange, o.underlyingSymbol)) else None
  }

  function Contracts(i: Index, d: Domain): set<Text> {
    if d.FuturesMarket? then i.futures else i.securities
  }

  function WithContracts(i: Index, d: Domain, contracts: set<Text>): Index {
    if d.FuturesMarket? then i.(futures := contracts) else i.(securities := contracts)
  }

  /** Adding and rebuilding write the same; only adding marks its event. */
  function Upsert(i: Index, o: Order): Index
    requires o.identity.domain.Some?
  {
    var member, d := MemberOf(o.identity), o.identity.domain.value;
    Index(
      i.orders[o.id := o],
      Put(i.byInstrument, KeyOf(o.identity), o.id),
      Put(i.byAccount, o.identity.account, o.id),
      if Underlying(o.identity).Some? then Put(i.byUnderlying, Underlying(o.identity).value, o.id) else i.byUnderlying,
      i.all + {o.id},
      if d.FuturesMarket? then i.futures + {member} else i.futures,
      if d.SecuritiesMarket? then i.securities + {member} else i.securities,
      i.processed)
  }

  /** What removal reads of an order before its script runs; other writers may come in between. */
  function Detail(i: Index, id: string): Option<Identity> {
    if id in i.orders then Some(i.orders[id].identity) else None
  }

  /** The contract member and underlying set it passes to the script. */
  function RemovedMember(detail: Option<Identity>, exchange: Text, symbol: Text): Option<Text> {
    if detail.Some? && detail.value.orderBook != [] then Some(OrderMember(exchange, symbol, detail.value.orderBook)) else None
  }

  function RemovedUnderlying(detail: Option<Identity>): Option<Text> {
    if detail.Some? then Underlying(detail.value) else None
  }

  function Without(contracts: set<Text>, member: Option<Text>, last: bool): set<Text> {
    if last && member.Some? then contracts - {member.value} else contracts
  }

  /** The script of a removal that has read `detail`. */
  function Remove(i: Index, detail: Option<Identity>, id: string, account: Text, exchange: Text, symbol: Text): Index {
    var key := InstrumentKey(exchange, symbol);
    var byInstrument := Drop(i.byInstrument, key, id);
    var member, underlying := RemovedMember(detail, exchange, symbol), RemovedUnderlying(detail);
    var last := Members(byInstrument, key) == {};
    Index(
      i.orders - {id},
      byInstrument,
      Drop(i.byAccount, account, id),
      if underlying.Some? then Drop(i.byUnderlying, underlying.value, id) else i.byUnderlying,
      i.all - {id},
      Without(i.futures, member, last),
      Without(i.securities, member, last),
      i.processed)
  }

  // --- Projections of the order details.

  function OnInstrument(orders: map<string, Order>, key: Text): set<string> {
    set id | id in orders && KeyOf(orders[id].identity) == key
  }

  function OfAccount(orders: map<string, Order>, account: Text): set<string> {
    set id | id in orders && orders[id].identity.account == account
  }

  function OnUnderlying(orders: map<string, Order>, key: Text): set<string> {
    set id | id in orders && Underlying(orders[id].identity) == Some(key)
  }

  function ContractsOf(orders: map<string, Order>, d: Domain): set<Text> {
    set id | id in orders && orders[id].identity.domain == Some(d) :: MemberOf(orders[id].identity)
  }

  ghost predicate AllProject(i: Index) {
    && i.all == i.orders.Keys
    && forall id :: id in i.orders ==> i.orders[id].id == id && i.orders[id].identity.domain.Some?
  }

  ghost predicate InstrumentsProject(i: Index) {
    forall k: Text :: Members(i.byInstrument, k) == OnInstrument(i.orders, k)
  }

  ghost predicate AccountsProject(i: Index) {
    forall k: Text :: Members(i.byAccount, k) == OfAccount(i.orders, k)
  }

  ghost predicate UnderlyingsProject(i: Index) {
    forall k: Text :: Members(i.byUnderlying, k) == OnUnderlying(i.orders, k)
  }

  /** The order sets are projections of the details. */
  ghost predicate OrdersProject(i: Index) {
    AllProject(i) && InstrumentsProject(i) && AccountsProject(i) && UnderlyingsProject(i)
  }

  ghost predicate ContractsProject(i: Index) {
    forall d: Domain :: Contracts(i, d) == ContractsOf(i.orders, d)
  }

  /** An order id fixes what never changes about the order. */
  ghost predicate Known(home: map<string, Identity>, orders: map<string, Order>) {
    forall id :: id in orders ==> id in home && orders[id].identity == home[id]
  }

  /** The instrument key, the contract member and the domain determine each other; the order book code is
      never empty. */
  ghost predicate Coherent(home: map<string, Identity>) {
    && (forall id :: id in home ==> home[id].orderBook != [])
    && (forall x, y :: x in home && y in home ==> (KeyOf(home[x]) == KeyOf(home[y]) <==> MemberOf(home[x]) == MemberOf(home[y])))
    && (forall x, y :: x in home && y in home && KeyOf(home[x]) == KeyOf(home[y]) ==> home[x].domain == home[y].domain)
  }

  // --- Adding.

  lemma UpsertOrders(i: Index, o: Order, home: map<string, Identity>)
    requires OrdersProject(i) && Known(home, i.orders) && o.id in home && o.identity == home[o.id] && o.identity.domain.Some?
    ensures OrdersProject(Upsert(i, o)) && Known(home, Upsert(i, o).orders)
  {
    UpsertAll(i, o);
    UpsertInstruments(i, o);
    UpsertAccounts(i, o);
    UpsertUnderlyings(i, o);
  }

  /** An order is overwritten only by itself. */
  predicate SameOrder(i: Index, o: Order) {
    o.identity.domain.Some? && (o.id in i.orders ==> i.orders[o.id].identity == o.identity)
  }

  lemma UpsertAll(i: Index, o: Order)
    ensures AllProject(i) && SameOrder(i, o) ==> AllProject(Upsert(i, o))
  {}

  lemma UpsertInstruments(i: Index, o: Order)
    requires InstrumentsProject(i) && SameOrder(i, o)
    ensures InstrumentsProject(Upsert(i, o))
  {
    forall k: Text ensures Members(Upsert(i, o).byInstrument, k) == OnInstrument(Upsert(i, o).orders, k) {
      UpsertInstrument(i.byInstrument, i.orders, o, k);
    }
  }

  lemma UpsertAccounts(i: Index, o: Order)
    requires AccountsProject(i) && SameOrder(i, o)
    ensures AccountsProject(Upsert(i, o))
  {
    forall k: Text ensures Members(Upsert(i, o).byAccount, k) == OfAccount(Upsert(i, o).orders, k) {
      UpsertAccount(i.byAccount, i.orders, o, k);
    }
  }

  lemma UpsertUnderlyings(i: Index, o: Order)
    requires UnderlyingsProject(i) && SameOrder(i, o)
    ensures UnderlyingsProject(Upsert(i, o))
  {
    forall k: Text ensures Members(Upsert(i, o).byUnderlying, k) == OnUnderlying(Upsert(i, o).orders, k) {
      UpsertUnderlying(i.byUnderlying, i.orders, o, k);
    }
  }

  lemma UpsertInstrument(table: map<Text, set<string>>, orders: map<string, Order>, o: Order, k: Text)
    requires Members(table, k) == OnInstrument(orders, k)
    requires o.id in orders ==> orders[o.id].identity == o.identity
    ensures Members(Put(table, KeyOf(o.identity), o.id), k) == OnInstrument(orders[o.id := o], k)
  {
    PutMembers(table, KeyOf(o.identity), o.id, k);
  }

  lemma UpsertAccount(table: map<Text, set<string>>, orders: map<string, Order>, o: Order, k: Text)
    requires Members(table, k) == OfAccount(orders, k)
    requires o.id in orders ==> orders[o.id].identity == o.identity
    ensures Members(Put(table, o.identity.account, o.id), k) == OfAccount(orders[o.id := o], k)
  {
    PutMembers(table, o.identity.account, o.id, k);
  }

  lemma UpsertUnderlying(table: map<Text, set<string>>, orders: map<string, Order>, o: Order, k: Text)
    requires Members(table, k) == OnUnderlying(orders, k)
    requires o.id in orders ==> orders[o.id].identity == o.identity
    ensures var u := Underlying(o.identity);
      Members(if u.Some? then Put(table, u.value, o.id) else table, k) == OnUnderlying(orders[o.id := o], k)
  {
    if Underlying(o.identity).Some? {
      PutMembers(table, Underlying(o.identity).value, o.id, k);
    }
  }

  lemma UpsertContracts(i: Index, o: Order)
    requires ContractsProject(i) && o.identity.domain.Some?
    requires o.id in i.orders ==> i.orders[o.id].identity == o.identity
    ensures ContractsProject(Upsert(i, o))
  {
    var t := Upsert(i, o);
    forall d: Domain ensures Contracts(t, d) == ContractsOf(t.orders, d) {
      assert Contracts(i, d) == ContractsOf(i.orders, d);
      UpsertMembers(i.orders, o, d);
    }
  }

  lemma UpsertMembers(orders: map<string, Order>, o: Order, d: Domain)
    requires o.id in orders ==> orders[o.id].identity == o.identity
    ensures ContractsOf(orders[o.id := o], d)
         == if o.identity.domain == Some(d) then ContractsOf(orders, d) + {MemberOf(o.identity)} else ContractsOf(orders, d)
  {
    var t := orders[o.id := o];
    forall m | m in ContractsOf(orders, d) ensures m in ContractsOf(t, d) {
      var id :| id in orders && orders[id].identity.domain == Some(d) && m == MemberOf(orders[id].identity);
      assert t[id].identity == orders[id].identity;
    }
    if o.identity.domain == Some(d) {
      assert t[o.id] == o;
    }
  }

  // --- Removing.

  /** The caller names the order by the account and codes it was added under. */
  predicate Names(home: map<string, Identity>, id: string, account: Text, exchange: Text, symbol: Text) {
    id in home && home[id].account == account && home[id].exchange == exchange && home[id].symbol == symbol
  }

  /** What was read is still true of the order as far as the script needs: it was there, or is not there. */
  predicate Timely(i: Index, home: map<string, Identity>, detail: Option<Identity>, id: string)
    requires id in home
  {
    if detail.Some? then detail.value == home[id] else id !in i.orders
  }

  lemma RemoveOrders(i: Index, home: map<string, Identity>, detail: Option<Identity>,
                     id: string, account: Text, exchange: Text, symbol: Text)
    requires OrdersProject(i) && Known(home, i.orders) && Names(home, id, account, exchange, symbol) && Timely(i, home, detail, id)
    ensures OrdersProject(Remove(i, detail, id, account, exchange, symbol))
    ensures Known(home, Remove(i, detail, id, account, exchange, symbol).orders)
  {
    RemoveInstruments(i, detail, id, account, exchange, symbol);
    RemoveAccounts(i, detail, id, account, exchange, symbol);
    RemoveUnderlyings(i, detail, id, account, exchange, symbol);
  }

  lemma RemoveInstruments(i: Index, detail: Option<Identity>, id: string, account: Text, exchange: Text, symbol: Text)
    requires InstrumentsProject(i) && (id in i.orders ==> KeyOf(i.orders[id].identity) == InstrumentKey(exchange, symbol))
    ensures InstrumentsProject(Remove(i, detail, id, account, exchange, symbol))
  {
    var t := Remove(i, detail, id, account, exchange, symbol);
    forall k: Text ensures Members(t.byInstrument, k) == OnInstrument(t.orders, k) {
      RemoveInstrument(i.byInstrument, i.orders, id, k, InstrumentKey(exchange, symbol));
    }
  }

  lemma RemoveAccounts(i: Index, detail: Option<Identity>, id: string, account: Text, exchange: Text, symbol: Text)
    requires AccountsProject(i) && (id in i.orders ==> i.orders[id].identity.account == account)
    ensures AccountsProject(Remove(i, detail, id, account, exchange, symbol))
  {
    var t := Remove(i, detail, id, account, exchange, symbol);
    forall k: Text ensures Members(t.byAccount, k) == OfAccount(t.orders, k) {
      RemoveAccount(i.byAccount, i.orders, id, k, account);
    }
  }

  lemma RemoveUnderlyings(i: Index, detail: Option<Identity>, id: string, account: Text, exchange: Text, symbol: Text)
    requires UnderlyingsProject(i) && (id in i.orders ==> RemovedUnderlying(detail) == Underlying(i.orders[id].identity))
    ensures UnderlyingsProject(Remove(i, detail, id, account, exchange, symbol))
  {
    var t := Remove(i, detail, id, account, exchange, symbol);
    forall k: Text ensures Members(t.byUnderlying, k) == OnUnderlying(t.orders, k) {
      RemoveUnderlying(i.byUnderlying, i.orders, id, k, RemovedUnderlying(detail));
    }
  }

  lemma RemoveInstrument(table: map<Text, set<string>>, orders: map<string, Order>, id: string, k: Text, key: Text)
    requires Members(table, k) == OnInstrument(orders, k) && (id in orders ==> KeyOf(orders[id].identity) == key)
    ensures Members(Drop(table, key, id), k) == OnInstrument(orders - {id}, k)
  {
    DropMembers(table, key, id, k);
  }

  lemma RemoveAccount(table: map<Text, set<string>>, orders: map<string, Order>, id: string, k: Text, account: Text)
    requires Members(table, k) == OfAccount(orders, k) && (id in orders ==> orders[id].identity.account == account)
    ensures Members(Drop(table, account, id), k) == OfAccount(orders - {id}, k)
  {
    DropMembers(table, account, id, k);
  }

  lemma RemoveUnderlying(table: map<Text, set<string>>, orders: map<string, Order>, id: string, k: Text, u: Option<Text>)
    requires Members(table, k) == OnUnderlying(orders, k)
    requires id in orders ==> u == Underlying(orders[id].identity)
    ensures Members(if u.Some? then Drop(table, u.value, id) else table, k) == OnUnderlying(orders - {id}, k)
  {
    if u.Some? {
      DropMembers(table, u.value, id, k);
    }
  }

  /** Some remaining order of the domain still needs the contract. */
  ghost predicate Needs(orders: map<string, Order>, member: Text, d: Domain) {
    exists id :: id in orders && orders[id].identity.domain == Some(d) && MemberOf(orders[id].identity) == member
  }

  /** Removing an order leaves the contracts exact precisely when its contract member goes with the last
      order that needs it, neither later nor earlier: kept, because orders of the same raw codes remain or
      the order book code is empty, only if an order of its domain needs it; dropped only if none does. */
  lemma RemoveExactIff(i: Index, id: string, account: Text, exchange: Text, symbol: Text)
    requires OrdersProject(i) && ContractsProject(i) && id in i.orders
    requires var o := i.orders[id].identity; o.account == account && o.exchange == exchange && o.symbol == symbol
    ensures var o, rest := i.orders[id].identity, i.orders - {id};
      ContractsProject(Remove(i, Some(o), id, account, exchange, symbol)) <==>
        if OnInstrument(rest, KeyOf(o)) != {} || o.orderBook == []
        then Needs(rest, MemberOf(o), o.domain.value)
        else forall d: Domain :: !Needs(rest, MemberOf(o), d)
  {
    var o, rest := i.orders[id].identity, i.orders - {id};
    var kept := OnInstrument(rest, KeyOf(o)) != {} || o.orderBook == [];
    var t := Remove(i, Some(o), id, account, exchange, symbol);
    RemovedContracts(i, Some(o), id, account, exchange, symbol);
    forall d: Domain
      ensures Contracts(t, d) == ContractsOf(rest, d) <==>
        if kept then (o.domain == Some(d) ==> Needs(rest, MemberOf(o), d)) else !Needs(rest, MemberOf(o), d)
    {
      assert Contracts(i, d) == ContractsOf(i.orders, d);
      KeptIff(i.orders, id, d);
    }
    assert t.orders == rest;
  }

  /** When keeping the order's contract, or dropping it, gives the contracts of the remaining orders. */
  lemma KeptIff(orders: map<string, Order>, id: string, d: Domain)
    requires id in orders
    ensures var o, rest := orders[id].identity, orders - {id};
      && (ContractsOf(orders, d) == ContractsOf(rest, d) <==> (o.domain == Some(d) ==> Needs(rest, MemberOf(o), d)))
      && (ContractsOf(orders, d) - {MemberOf(o)} == ContractsOf(rest, d) <==> !Needs(rest, MemberOf(o), d))
  {
    ContractsWithout(orders, id, d);
    NeedsIsMember(orders - {id}, MemberOf(orders[id].identity), d);
  }

  /** What the script does to the contracts of either domain. */
  lemma RemovedContracts(i: Index, detail: Option<Identity>, id: string, account: Text, exchange: Text, symbol: Text)
    requires InstrumentsProject(i) && (id in i.orders ==> KeyOf(i.orders[id].identity) == InstrumentKey(exchange, symbol))
    ensures var t, member := Remove(i, detail, id, account, exchange, symbol), RemovedMember(detail, exchange, symbol);
      forall d: Domain :: Contracts(t, d)
        == if member.Some? && OnInstrument(i.orders - {id}, InstrumentKey(exchange, symbol)) == {}
           then Contracts(i, d) - {member.value} else Contracts(i, d)
  {
    var key := InstrumentKey(exchange, symbol);
    RemoveInstrument(i.byInstrument, i.orders, id, key, key);
  }

  /** A removal that read nothing, of an order added before its script runs, leaves the order's contract
      and its place under its underlying behind: exact precisely if neither should go. */
  lemma LateAddIff(i: Index, id: string, account: Text, exchange: Text, symbol: Text)
    requires OrdersProject(i) && ContractsProject(i) && id in i.orders
    requires var o := i.orders[id].identity; o.account == account && o.exchange == exchange && o.symbol == symbol
    ensures var o, rest, t := i.orders[id].identity, i.orders - {id}, Remove(i, None, id, account, exchange, symbol);
      && (UnderlyingsProject(t) <==> Underlying(o).None?)
      && (ContractsProject(t) <==> Needs(rest, MemberOf(o), o.domain.value))
  {
    var o, rest, t := i.orders[id].identity, i.orders - {id}, Remove(i, None, id, account, exchange, symbol);
    if Underlying(o).Some? {
      var k := Underlying(o).value;
      assert id in OnUnderlying(i.orders, k) && id !in OnUnderlying(rest, k);
      assert Members(t.byUnderlying, k) == Members(i.byUnderlying, k) == OnUnderlying(i.orders, k);
    } else {
      RemoveUnderlyings(i, None, id, account, exchange, symbol);
    }
    RemovedContracts(i, None, id, account, exchange, symbol);
    forall d: Domain ensures Contracts(t, d) == ContractsOf(rest, d) <==> (o.domain == Some(d) ==> Needs(rest, MemberOf(o), d)) {
      assert Contracts(i, d) == ContractsOf(i.orders, d);
      KeptIff(i.orders, id, d);
    }
    assert t.orders == rest;
  }

  lemma NeedsIsMember(orders: map<string, Order>, member: Text, d: Domain)
    ensures Needs(orders, member, d) <==> member in ContractsOf(orders, d)
  {}

  lemma ContractsWithout(orders: map<string, Order>, id: string, d: Domain)
    requires id in orders
    ensures ContractsOf(orders, d)
         == ContractsOf(orders - {id}, d) + if orders[id].identity.domain == Some(d) then {MemberOf(orders[id].identity)} else {}
  {
    var rest := orders - {id};
    forall m | m in ContractsOf(rest, d) ensures m in ContractsOf(orders, d) {
      var x :| x in rest && rest[x].identity.domain == Some(d) && m == MemberOf(rest[x].identity);
      assert orders[x] == rest[x];
    }
    forall m | m in ContractsOf(orders, d)
      ensures m in ContractsOf(rest, d) || (orders[id].identity.domain == Some(d) && m == MemberOf(orders[id].identity))
    {
      var x :| x in orders && orders[x].identity.domain == Some(d) && m == MemberOf(orders[x].identity);
      assert x == id || rest[x] == orders[x];
    }
    if orders[id].identity.domain == Some(d) {
      assert MemberOf(orders[id].identity) in ContractsOf(orders, d);
    }
  }

  /** With coherent codes orders share a contract exactly when they share the raw codes. */
  lemma NeedsIff(orders: map<string, Order>, home: map<string, Identity>, id: string, d: Domain)
    requires Known(home, orders) && Coherent(home) && id in home
    requires forall x :: x in orders ==> orders[x].identity.domain.Some?
    ensures Needs(orders, MemberOf(home[id]), d)
       <==> OnInstrument(orders, KeyOf(home[id])) != {} && home[id].domain == Some(d)
  {
    var key, member := KeyOf(home[id]), MemberOf(home[id]);
    if Needs(orders, member, d) {
      var x :| x in orders && orders[x].identity.domain == Some(d) && MemberOf(orders[x].identity) == member;
      assert home[x] == orders[x].identity;
      assert x in OnInstrument(orders, key);
    }
    if x :| x in OnInstrument(orders, key) {
      assert home[x] == orders[x].identity && MemberOf(home[x]) == member && home[x].domain == home[id].domain;
    }
  }

  /** The contracts of domain `d` are right about `m`; `Covers` is the half that no order may lose. */
  ghost predicate Exact(i: Index, d: Domain, m: Text) {
    m in Contracts(i, d) <==> Needs(i.orders, m, d)
  }

  ghost predicate Covers(i: Index, d: Domain, m: Text) {
    Needs(i.orders, m, d) ==> m in Contracts(i, d)
  }

  ghost predicate Keeps(i: Index, t: Index, d: Domain, m: Text) {
    (Covers(i, d, m) ==> Covers(t, d, m)) && (Exact(i, d, m) ==> Exact(t, d, m))
  }

  lemma UpsertKeepsMember(i: Index, o: Order, d: Domain, m: Text)
    requires SameOrder(i, o)
    ensures Keeps(i, Upsert(i, o), d, m)
  {
    NeededWith(i.orders, o, d, m);
  }

  lemma NeededWith(orders: map<string, Order>, o: Order, d: Domain, m: Text)
    requires o.id in orders ==> orders[o.id].identity == o.identity
    ensures Needs(orders[o.id := o], m, d) <==> Needs(orders, m, d) || (o.identity.domain == Some(d) && m == MemberOf(o.identity))
  {
    var t := orders[o.id := o];
    assert t[o.id] == o;
    if id :| id in orders && orders[id].identity.domain == Some(d) && MemberOf(orders[id].identity) == m {
      assert t[id].identity == orders[id].identity;
    }
  }

  /** Whether the order with this id is there or not, its contract is needed without it as before, unless no
      order of the raw codes remains. */
  lemma NeededWithout(orders: map<string, Order>, home: map<string, Identity>, id: string, d: Domain)
    requires Known(home, orders) && Coherent(home) && id in home
    requires forall x :: x in orders ==> orders[x].identity.domain.Some?
    ensures var m := MemberOf(home[id]);
      Needs(orders - {id}, m, d) <==> Needs(orders, m, d) && OnInstrument(orders - {id}, KeyOf(home[id])) != {}
  {
    var rest, m := orders - {id}, MemberOf(home[id]);
    NeedsIff(rest, home, id, d);
    NeedsIff(orders, home, id, d);
    if x :| x in OnInstrument(rest, KeyOf(home[id])) {
      assert x in OnInstrument(orders, KeyOf(home[id]));
    }
  }

  lemma OthersNeededWithout(orders: map<string, Order>, id: string, d: Domain, m: Text)
    requires id in orders ==> MemberOf(orders[id].identity) != m
    ensures Needs(orders - {id}, m, d) <==> Needs(orders, m, d)
  {
    if x :| x in orders && orders[x].identity.domain == Some(d) && MemberOf(orders[x].identity) == m {
      assert (orders - {id})[x] == orders[x];
    }
  }

  /** The script takes the contract away, as no order of the raw codes remains. */
  ghost predicate Goes(orders: map<string, Order>, home: map<string, Identity>, detail: Option<Identity>, id: string, m: Text)
  {
    id in home && detail.Some? && m == MemberOf(home[id]) && OnInstrument(orders - {id}, KeyOf(home[id])) == {}
  }

  lemma TakenOut(i: Index, home: map<string, Identity>, detail: Option<Identity>,
                 id: string, account: Text, exchange: Text, symbol: Text, d: Domain, m: Text)
    requires OrdersProject(i) && Known(home, i.orders) && Coherent(home)
    requires Names(home, id, account, exchange, symbol) && Timely(i, home, detail, id)
    ensures m in Contracts(Remove(i, detail, id, account, exchange, symbol), d) <==>
      m in Contracts(i, d) && !Goes(i.orders, home, detail, id, m)
  {
    RemovedIsOwn(i, home, detail, id, account, exchange, symbol);
    var member := RemovedMember(detail, exchange, symbol);
    var last := OnInstrument(i.orders - {id}, InstrumentKey(exchange, symbol)) == {};
    ContractsLeft(i, detail, id, account, exchange, symbol, d);
    WithoutContains(Contracts(i, d), member, last, m);
  }

  lemma WithoutContains(contracts: set<Text>, member: Option<Text>, last: bool, m: Text)
    ensures m in Without(contracts, member, last) <==> m in contracts && !(last && member == Some(m))
  {}

  lemma ContractsLeft(i: Index, detail: Option<Identity>, id: string, account: Text, exchange: Text, symbol: Text, d: Domain)
    requires InstrumentsProject(i) && (id in i.orders ==> KeyOf(i.orders[id].identity) == InstrumentKey(exchange, symbol))
    ensures Contracts(Remove(i, detail, id, account, exchange, symbol), d)
         == Without(Contracts(i, d), RemovedMember(detail, exchange, symbol),
                    OnInstrument(i.orders - {id}, InstrumentKey(exchange, symbol)) == {})
  {
    RemovedContracts(i, detail, id, account, exchange, symbol);
  }

  lemma RemovedIsOwn(i: Index, home: map<string, Identity>, detail: Option<Identity>,
                     id: string, account: Text, exchange: Text, symbol: Text)
    requires Known(home, i.orders) && Coherent(home)
    requires Names(home, id, account, exchange, symbol) && Timely(i, home, detail, id)
    ensures RemovedMember(detail, exchange, symbol) == if detail.Some? then Some(MemberOf(home[id])) else None
    ensures KeyOf(home[id]) == InstrumentKey(exchange, symbol)
    ensures id in i.orders ==> i.orders[id].identity == home[id]
  {}

  lemma NeededAfter(i: Index, home: map<string, Identity>, detail: Option<Identity>, id: string, d: Domain, m: Text)
    requires OrdersProject(i) && Known(home, i.orders) && Coherent(home) && id in home && Timely(i, home, detail, id)
    ensures Needs(i.orders - {id}, m, d) <==> Needs(i.orders, m, d) && !Goes(i.orders, home, detail, id, m)
  {
    if detail.None? {
      assert i.orders - {id} == i.orders;
    } else if m == MemberOf(home[id]) {
      NeededWithout(i.orders, home, id, d);
    } else {
      OthersNeededWithout(i.orders, id, d, m);
    }
  }

  /** With coherent codes every timely removal takes a contract exactly with its last order. */
  lemma RemoveKeepsMember(i: Index, home: map<string, Identity>, detail: Option<Identity>,
                          id: string, account: Text, exchange: Text, symbol: Text, d: Domain, m: Text)
    requires OrdersProject(i) && Known(home, i.orders) && Coherent(home)
    requires Names(home, id, account, exchange, symbol) && Timely(i, home, detail, id)
    ensures Keeps(i, Remove(i, detail, id, account, exchange, symbol), d, m)
  {
    var t := Remove(i, detail, id, account, exchange, symbol);
    TakenOut(i, home, detail, id, account, exchange, symbol, d, m);
    NeededAfter(i, home, detail, id, d, m);
    KeepsOrGoes(i, t, d, m, Goes(i.orders, home, detail, id, m));
  }

  lemma KeepsOrGoes(i: Index, t: Index, d: Domain, m: Text, goes: bool)
    requires m in Contracts(t, d) <==> m in Contracts(i, d) && !goes
    requires Needs(t.orders, m, d) <==> Needs(i.orders, m, d) && !goes
    ensures Keeps(i, t, d, m)
  {}

  // --- Whole runs.

  /** `Delete` is the script of a removal that read `detail` some time before; `Sweep` is what reconciliation
      does about one member it has listed. */
  datatype Step =
    | Add(order: Order, event: string)
    | Restore(order: Order)
    | Delete(detail: Option<Identity>, id: string, account: Text, exchange: Text, symbol: Text, processed: Option<string>)
    | ExpireMarker(event: string)
    | Sweep(domain: Domain, member: Text)

  /** An unknown instrument type raises before anything is written. */
  function Next(i: Index, step: Step): Index {
    match step
    case Add(o, event) =>
      if o.identity.domain.None? then i else Upsert(i, o).(processed := i.processed + {event})
    case Restore(o) => if o.identity.domain.None? then i else Upsert(i, o)
    case Delete(detail, id, account, exchange, symbol, event) =>
      var marked := if event.Some? then i.processed + {event.value} else i.processed;
      Remove(i, detail, id, account, exchange, symbol).(processed := marked)
    case ExpireMarker(event) => i.(processed := i.processed - {event})
    case Sweep(d, m) => if Survives(i.byInstrument, m) then i else WithContracts(i, d, Contracts(i, d) - {m})
  }

  function Run(start: Index, steps: seq<Step>): Index {
    if steps == [] then start else Next(Run(start, steps[..|steps| - 1]), steps[|steps| - 1])
  }

  /** The step names orders as they are, no order is removed by a script that missed its addition, and a
      swept member leads back to the codes its orders were added under. */
  predicate Conforms(i: Index, home: map<string, Identity>, step: Step) {
    match step
    case Add(o, _) => o.id in home && o.identity == home[o.id]
    case Restore(o) => o.id in home && o.identity == home[o.id]
    case Delete(detail, id, account, exchange, symbol, _) =>
      Names(home, id, account, exchange, symbol) && Timely(i, home, detail, id)
    case ExpireMarker(_) => true
    case Sweep(_, m) => forall id :: id in home && MemberOf(home[id]) == m ==> LeadsBack(home[id])
  }

  /** What conforming asks for: orders written as they are known; removals that name an order as it is known and
      have read it, or found it absent when it still is; sweeps of contracts of leading-back orders only. */
  lemma ConformsIff(i: Index, home: map<string, Identity>, o: Order, id: string, event: string, d: Domain)
    requires id in home
    ensures Conforms(i, home, Add(o, event)) <==> Conforms(i, home, Restore(o))
    ensures Conforms(i, home, Add(o, event)) <==> o.id in home && home[o.id] == o.identity
    ensures var h := home[id];
      && Conforms(i, home, Delete(Some(h), id, h.account, h.exchange, h.symbol, None))
      && (Conforms(i, home, Delete(None, id, h.account, h.exchange, h.symbol, None)) <==> id !in i.orders)
      && Conforms(i, home, ExpireMarker(event))
      && ((forall x :: x in home ==> LeadsBack(home[x])) ==> Conforms(i, home, Sweep(d, MemberOf(h))))
  {}

  /** The codes read back from the contract member are the raw ones. */
  predicate LeadsBack(o: Identity) {
    KeyOf(o) == InstrumentKey(Normal(o.exchange), Normal(o.symbol))
  }

  ghost predicate OrdersInv(i: Index, home: map<string, Identity>) {
    OrdersProject(i) && Known(home, i.orders)
  }

  lemma StepKeepsOrders(i: Index, home: map<string, Identity>, step: Step)
    requires OrdersInv(i, home) && Conforms(i, home, step)
    ensures OrdersInv(Next(i, step), home)
  {
    if (step.Add? || step.Restore?) && step.order.identity.domain.Some? {
      UpsertOrders(i, step.order, home);
      SameOrders(Upsert(i, step.order), Next(i, step), home);
    } else if step.Delete? {
      RemoveOrders(i, home, step.detail, step.id, step.account, step.exchange, step.symbol);
      SameOrders(Remove(i, step.detail, step.id, step.account, step.exchange, step.symbol), Next(i, step), home);
    } else {
      SameOrders(i, Next(i, step), home);
    }
  }

  lemma SameOrders(i: Index, t: Index, home: map<string, Identity>)
    requires OrdersInv(i, home) && t == i.(processed := t.processed, futures := t.futures, securities := t.securities)
    ensures OrdersInv(t, home)
  {}

  /** One member at a time: whatever a step does, a contract some order needs stays, and a right answer
      stays right. */
  lemma StepKeepsMember(i: Index, home: map<string, Identity>, step: Step, d: Domain, m: Text)
    requires OrdersInv(i, home) && Coherent(home) && Conforms(i, home, step)
    ensures Keeps(i, Next(i, step), d, m)
  {
    if (step.Add? || step.Restore?) && step.order.identity.domain.Some? {
      UpsertKeepsMember(i, step.order, d, m);
      MarkersKeep(i, Upsert(i, step.order), Next(i, step), d, m);
    } else if step.Delete? {
      RemoveKeepsMember(i, home, step.detail, step.id, step.account, step.exchange, step.symbol, d, m);
      MarkersKeep(i, Remove(i, step.detail, step.id, step.account, step.exchange, step.symbol), Next(i, step), d, m);
    } else if step.Sweep? {
      SweepKeepsMember(i, home, step.domain, step.member, d, m);
    } else {
      MarkersKeep(i, i, Next(i, step), d, m);
    }
  }

  lemma MarkersKeep(i: Index, u: Index, t: Index, d: Domain, m: Text)
    requires Keeps(i, u, d, m) && t == u.(processed := t.processed)
    ensures Keeps(i, t, d, m)
  {}

  lemma SweepKeepsMember(i: Index, home: map<string, Identity>, e: Domain, n: Text, d: Domain, m: Text)
    requires OrdersInv(i, home) && Conforms(i, home, Sweep(e, n))
    ensures Keeps(i, Next(i, Sweep(e, n)), d, m)
  {
    var t := Next(i, Sweep(e, n));
    assert t.orders == i.orders;
    if m == n && Needs(i.orders, m, d) {
      NeededSurvives(i, home, d, m);
    } else if m != n || e != d {
      assert m in Contracts(t, d) <==> m in Contracts(i, d);
    }
  }

  lemma NeededSurvives(i: Index, home: map<string, Identity>, d: Domain, m: Text)
    requires OrdersInv(i, home) && Needs(i.orders, m, d)
    requires forall id :: id in home && MemberOf(home[id]) == m ==> LeadsBack(home[id])
    ensures Survives(i.byInstrument, m)
  {
    var id :| id in i.orders && i.orders[id].identity.domain == Some(d) && MemberOf(i.orders[id].identity) == m;
    assert i.orders[id].identity == home[id];
    SurvivesIff(i, home[id]);
  }

  /** A stale member is taken out by its sweep, unless an order has come to need it: from then on right. */
  lemma SweepSettles(i: Index, home: map<string, Identity>, h: string, d: Domain)
    requires OrdersInv(i, home) && Coherent(home) && h in home && home[h].domain == Some(d) && LeadsBack(home[h])
    requires Covers(i, d, MemberOf(home[h]))
    ensures Exact(Next(i, Sweep(d, MemberOf(home[h]))), d, MemberOf(home[h]))
  {
    SurvivesIfNeeded(i, home, h, d);
  }

  lemma SurvivesIfNeeded(i: Index, home: map<string, Identity>, h: string, d: Domain)
    requires OrdersInv(i, home) && Coherent(home) && h in home && home[h].domain == Some(d) && LeadsBack(home[h])
    ensures Survives(i.byInstrument, MemberOf(home[h])) <==> Needs(i.orders, MemberOf(home[h]), d)
  {
    SurvivesIff(i, home[h]);
    NeedsIff(i.orders, home, h, d);
    OnInstrumentIff(i.orders, KeyOf(home[h]));
  }

  ghost predicate RunConforms(start: Index, home: map<string, Identity>, steps: seq<Step>) {
    forall k :: 0 <= k < |steps| ==> Conforms(Run(start, steps[..k]), home, steps[k])
  }

  lemma FrontConforms(start: Index, home: map<string, Identity>, steps: seq<Step>)
    requires steps != [] && RunConforms(start, home, steps)
    ensures RunConforms(start, home, steps[..|steps| - 1])
    ensures Conforms(Run(start, steps[..|steps| - 1]), home, steps[|steps| - 1])
  {
    var front := steps[..|steps| - 1];
    assert forall k :: 0 <= k < |front| ==> front[..k] == steps[..k] && front[k] == steps[k];
  }

  lemma {:induction false} RunKeepsOrders(start: Index, home: map<string, Identity>, steps: seq<Step>)
    requires OrdersInv(start, home) && RunConforms(start, home, steps)
    ensures OrdersInv(Run(start, steps), home)
  {
    if steps != [] {
      FrontConforms(start, home, steps);
      RunKeepsOrders(start, home, steps[..|steps| - 1]);
      StepKeepsOrders(Run(start, steps[..|steps| - 1]), home, steps[|steps| - 1]);
    }
  }

  lemma StepSettles(i: Index, home: map<string, Identity>, step: Step, d: Domain, m: Text)
    requires OrdersInv(i, home) && Coherent(home) && Conforms(i, home, step)
    requires step == Sweep(d, m) && Placed(home, d, m) && Covers(i, d, m)
    ensures Exact(Next(i, step), d, m)
  {
    var h :| h in home && home[h].domain == Some(d) && MemberOf(home[h]) == m;
    SweepSettles(i, home, h, d);
  }

  /** Sweeps beside any other writers: over whole runs no contract that an active order needs is ever missing,
      what is right stays right, and a contract of a known order that was swept once is right. */
  lemma {:induction false} RunKeepsMember(start: Index, home: map<string, Identity>, steps: seq<Step>, d: Domain, m: Text)
    requires OrdersInv(start, home) && Coherent(home) && RunConforms(start, home, steps) && Covers(start, d, m)
    ensures Covers(Run(start, steps), d, m)
    ensures Exact(start, d, m) || (Sweep(d, m) in steps && Placed(home, d, m)) ==> Exact(Run(start, steps), d, m)
  {
    if steps != [] {
      var front, last := steps[..|steps| - 1], steps[|steps| - 1];
      FrontConforms(start, home, steps);
      RunKeepsOrders(start, home, front);
      RunKeepsMember(start, home, front, d, m);
      StepKeepsMember(Run(start, front), home, last, d, m);
      if last == Sweep(d, m) && Placed(home, d, m) {
        StepSettles(Run(start, front), home, last, d, m);
      }
      assert steps == front + [last];
    }
  }

  /** After any run of adds, redeliveries, rebuilds, removals and sweeps all derived sets are projections of
      the order details. */
  lemma RunProjects(steps: seq<Step>, home: map<string, Identity>)
    requires Coherent(home) && RunConforms(EMPTY, home, steps)
    ensures var i := Run(EMPTY, steps); OrdersProject(i) && ContractsProject(i) && Known(home, i.orders)
  {
    forall d: Domain, m: Text ensures Exact(Run(EMPTY, steps), d, m) {
      RunKeepsMember(EMPTY, home, steps, d, m);
    }
    RunKeepsOrders(EMPTY, home, steps);
    AllExact(Run(EMPTY, steps));
  }

  /** Which orders listen to an underlying: after any run exactly the active option orders that sell to open
      and name it, by both of its codes. */
  lemma ListensIff(steps: seq<Step>, home: map<string, Identity>, id: string, exchange: Text, symbol: Text)
    requires Coherent(home) && RunConforms(EMPTY, home, steps) && ':' !in exchange
    requires forall x :: x in home ==> ':' !in home[x].underlyingExchange
    ensures var i := Run(EMPTY, steps);
      id in Members(i.byUnderlying, exchange + [':'] + symbol) <==>
        && id in i.orders
        && var o := i.orders[id].identity;
        && o.optionType && o.sellOpen
        && o.underlyingExchange == exchange != [] && o.underlyingSymbol == symbol != []
  {
    var i := Run(EMPTY, steps);
    RunProjects(steps, home);
    var key := InstrumentKey(exchange, symbol);
    assert Members(i.byUnderlying, key) == OnUnderlying(i.orders, key);
    if id in i.orders {
      var o := i.orders[id].identity;
      assert o == home[id];
      if InstrumentKey(o.underlyingExchange, o.underlyingSymbol) == key {
        JoinInjective(o.underlyingExchange, o.underlyingSymbol, exchange, symbol, ':');
      }
    }
  }

  /** Which orders are listed for an instrument and for an account. */
  lemma ListedIff(steps: seq<Step>, home: map<string, Identity>, id: string, exchange: Text, symbol: Text, account: Text)
    requires Coherent(home) && RunConforms(EMPTY, home, steps) && ':' !in exchange
    requires forall x :: x in home ==> ':' !in home[x].exchange
    ensures var i := Run(EMPTY, steps);
      && (id in Members(i.byInstrument, exchange + [':'] + symbol) <==>
            id in i.orders && i.orders[id].identity.exchange == exchange && i.orders[id].identity.symbol == symbol)
      && (id in Members(i.byAccount, account) <==> id in i.orders && i.orders[id].identity.account == account)
      && (id in i.all <==> id in i.orders)
  {
    var i := Run(EMPTY, steps);
    RunProjects(steps, home);
    var key := InstrumentKey(exchange, symbol);
    assert Members(i.byInstrument, key) == OnInstrument(i.orders, key);
    assert Members(i.byAccount, account) == OfAccount(i.orders, account);
    if id in i.orders && KeyOf(i.orders[id].identity) == key {
      JoinInjective(i.orders[id].identity.exchange, i.orders[id].identity.symbol, exchange, symbol, ':');
    }
  }

  /** An event is remembered from its addition, or from a removal that names it, until its marker expires. */
  lemma RememberedIff(i: Index, step: Step, event: string)
    ensures event in Next(i, step).processed <==> Remembers(step, event) || (event in i.processed && step != ExpireMarker(event))
  {}

  predicate Remembers(step: Step, event: string) {
    (step.Add? && step.event == event && step.order.identity.domain.Some?) || (step.Delete? && step.processed == Some(event))
  }

  lemma AllExact(i: Index)
    requires forall d: Domain, m: Text :: Exact(i, d, m)
    ensures ContractsProject(i)
  {
    forall d: Domain ensures Contracts(i, d) == ContractsOf(i.orders, d) {
      forall m: Text ensures m in Contracts(i, d) <==> m in ContractsOf(i.orders, d) {
        assert Exact(i, d, m);
        NeedsIsMember(i.orders, m, d);
      }
    }
  }

  /** Normal codes without the key separator, with the exchange and symbol fixing order book and domain,
      are coherent. */
  lemma NormalCodesCohere(home: map<string, Identity>)
    requires forall id :: id in home ==> HasNormalCodes(home[id])
    requires forall x, y :: x in home && y in home ==> CodesFix(home[x], home[y])
    ensures Coherent(home)
  {
    forall x, y | x in home && y in home
      ensures KeyOf(home[x]) == KeyOf(home[y]) <==> MemberOf(home[x]) == MemberOf(home[y])
      ensures KeyOf(home[x]) == KeyOf(home[y]) ==> home[x].domain == home[y].domain
    {
      if KeyOf(home[x]) == KeyOf(home[y]) {
        JoinInjective(home[x].exchange, home[x].symbol, home[y].exchange, home[y].symbol, ':');
      }
      if MemberOf(home[x]) == MemberOf(home[y]) {
        OrderMemberRoundTrip(home[x].exchange, home[x].symbol, home[x].orderBook);
        OrderMemberRoundTrip(home[y].exchange, home[y].symbol, home[y].orderBook);
      }
    }
  }

  predicate CodesFix(a: Identity, b: Identity) {
    a.exchange == b.exchange && a.symbol == b.symbol ==> a.orderBook == b.orderBook && a.domain == b.domain
  }

  predicate HasNormalCodes(o: Identity) {
    && Normal(o.exchange) == o.exchange && Normal(o.symbol) == o.symbol
    && ':' !in o.exchange && o.orderBook != []
  }

  // --- Reading the contracts and reconciling them.

  /** The codes of one domain: members that do not parse or have no code are passed over. */
  function ActiveCodes(contracts: set<Text>): set<Text> {
    set m | m in contracts && ParseOrderMember(m).Some? && ParseOrderMember(m).value.orderBook != []
        :: ParseOrderMember(m).value.orderBook
  }

  /** The codes read are the normalised order book codes of the active orders of the domain. */
  lemma ActiveCodesIff(i: Index, d: Domain, code: Text)
    requires ContractsProject(i)
    ensures code in ActiveCodes(Contracts(i, d)) <==>
      code != [] && exists id :: id in i.orders && i.orders[id].identity.domain == Some(d) && Normal(i.orders[id].identity.orderBook) == code
  {
    assert Contracts(i, d) == ContractsOf(i.orders, d);
    if code in ActiveCodes(Contracts(i, d)) {
      var m :| m in ContractsOf(i.orders, d) && ParseOrderMember(m).Some? && ParseOrderMember(m).value.orderBook == code && code != [];
      var id :| id in i.orders && i.orders[id].identity.domain == Some(d) && m == MemberOf(i.orders[id].identity);
      var o := i.orders[id].identity;
      OrderMemberRoundTrip(o.exchange, o.symbol, o.orderBook);
    }
    if id :| code != [] && id in i.orders && i.orders[id].identity.domain == Some(d) && Normal(i.orders[id].identity.orderBook) == code {
      var o := i.orders[id].identity;
      OrderMemberRoundTrip(o.exchange, o.symbol, o.orderBook);
      assert MemberOf(o) in ContractsOf(i.orders, d);
    }
  }

  /** A member survives reconciliation: it parses, and the set of the instrument it names is not empty. */
  predicate Survives(byInstrument: map<Text, set<string>>, member: Text) {
    var p := ParseOrderMember(member);
    p.Some? && Members(byInstrument, InstrumentKey(p.value.exchange, p.value.symbol)) != {}
  }

  function Reconciled(byInstrument: map<Text, set<string>>, contracts: set<Text>): set<Text> {
    set m | m in contracts && Survives(byInstrument, m)
  }

  /** The contract of an order survives exactly when an active order has the normalised codes as its raw
      ones; an active order alone is not enough. */
  lemma SurvivesIff(i: Index, o: Identity)
    requires OrdersProject(i)
    ensures Survives(i.byInstrument, MemberOf(o)) <==>
      exists id :: id in i.orders && KeyOf(i.orders[id].identity) == InstrumentKey(Normal(o.exchange), Normal(o.symbol))
  {
    OrderMemberRoundTrip(o.exchange, o.symbol, o.orderBook);
    var key := InstrumentKey(Normal(o.exchange), Normal(o.symbol));
    assert Members(i.byInstrument, key) == OnInstrument(i.orders, key);
    if id :| id in i.orders && KeyOf(i.orders[id].identity) == key {
      assert id in OnInstrument(i.orders, key);
    }
    if Members(i.byInstrument, key) != {} {
      var id :| id in OnInstrument(i.orders, key);
    }
  }

  /** Reconciliation drops the contract of an active order written in lower case, say, whenever no other
      order is active under the upper-case codes. */
  lemma LowerCaseIsDropped(i: Index, id: string)
    requires OrdersProject(i) && i.orders.Keys == {id}
    requires var o := i.orders[id].identity;
      ':' !in o.exchange && ':' !in Normal(o.exchange) && (Normal(o.exchange) != o.exchange || Normal(o.symbol) != o.symbol)
    ensures !Survives(i.byInstrument, MemberOf(i.orders[id].identity))
  {
    var o := i.orders[id].identity;
    SurvivesIff(i, o);
    if KeyOf(o) == InstrumentKey(Normal(o.exchange), Normal(o.symbol)) {
      JoinInjective(o.exchange, o.symbol, Normal(o.exchange), Normal(o.symbol), ':');
      assert false;
    }
  }

  /** Extra contracts are those of known orders of the domain. */
  ghost predicate Superset(contracts: set<Text>, i: Index, home: map<string, Identity>, d: Domain) {
    && ContractsOf(i.orders, d) <= contracts
    && forall m :: m in contracts ==> Placed(home, d, m)
  }

  ghost predicate Placed(home: map<string, Identity>, d: Domain, m: Text) {
    exists id :: id in home && home[id].domain == Some(d) && MemberOf(home[id]) == m
  }

  /** Each domain by itself: from any superset left by interrupted writers, a run in which each contract
      listed at its start is swept, interleaved with any adds, rebuilds, removals and sweeps of the other
      domain, ends with exactly the contracts of the orders then active. */
  lemma SweepsRestore(start: Index, home: map<string, Identity>, steps: seq<Step>, d: Domain)
    requires OrdersInv(start, home) && Coherent(home) && RunConforms(start, home, steps)
    requires Superset(Contracts(start, d), start, home, d)
    requires Swept(start, steps, d)
    ensures Contracts(Run(start, steps), d) == ContractsOf(Run(start, steps).orders, d)
  {
    var t := Run(start, steps);
    forall m: Text ensures m in Contracts(t, d) <==> m in ContractsOf(t.orders, d) {
      NeedsIsMember(start.orders, m, d);
      RunKeepsMember(start, home, steps, d, m);
      NeedsIsMember(t.orders, m, d);
    }
  }

  lemma StepKeepsSuperset(i: Index, home: map<string, Identity>, step: Step, d: Domain)
    requires OrdersInv(i, home) && Coherent(home) && Conforms(i, home, step)
    requires Superset(Contracts(i, d), i, home, d)
    ensures Superset(Contracts(Next(i, step), d), Next(i, step), home, d)
  {
    var t := Next(i, step);
    forall m | m in ContractsOf(t.orders, d) ensures m in Contracts(t, d) {
      NeedsIsMember(i.orders, m, d);
      NeedsIsMember(t.orders, m, d);
      StepKeepsMember(i, home, step, d, m);
    }
    forall m | m in Contracts(t, d) ensures Placed(home, d, m) {
      if m !in Contracts(i, d) {
        NewContract(i, step, d, m);
        assert step.order.id in home;
      }
    }
  }

  /** Only writing an order adds a contract. */
  lemma NewContract(i: Index, step: Step, d: Domain, m: Text)
    requires m in Contracts(Next(i, step), d) && m !in Contracts(i, d)
    ensures (step.Add? || step.Restore?) && step.order.identity.domain == Some(d) && m == MemberOf(step.order.identity)
  {}

  lemma {:induction false} RunKeepsSuperset(start: Index, home: map<string, Identity>, steps: seq<Step>, d: Domain)
    requires OrdersInv(start, home) && Coherent(home) && RunConforms(start, home, steps)
    requires Superset(Contracts(start, d), start, home, d)
    ensures Superset(Contracts(Run(start, steps), d), Run(start, steps), home, d)
  {
    if steps != [] {
      FrontConforms(start, home, steps);
      RunKeepsSuperset(start, home, steps[..|steps| - 1], d);
      RunKeepsOrders(start, home, steps[..|steps| - 1]);
      StepKeepsSuperset(Run(start, steps[..|steps| - 1]), home, steps[|steps| - 1], d);
    }
  }

  /** So a whole reconciliation beside other writers repairs both domains: the futures contracts are swept in
      its first half, the securities contracts as listed after it in the second. */
  lemma ReconciliationRestores(start: Index, home: map<string, Identity>, first: seq<Step>, second: seq<Step>)
    requires OrdersInv(start, home) && Coherent(home)
    requires RunConforms(start, home, first) && RunConforms(Run(start, first), home, second)
    requires forall d: Domain :: Superset(Contracts(start, d), start, home, d)
    requires Swept(start, first, FuturesMarket) && Swept(Run(start, first), second, SecuritiesMarket)
    ensures ContractsProject(Run(Run(start, first), second))
  {
    var middle, end := Run(start, first), Run(Run(start, first), second);
    assert Superset(Contracts(start, FuturesMarket), start, home, FuturesMarket);
    assert Superset(Contracts(start, SecuritiesMarket), start, home, SecuritiesMarket);
    RunKeepsOrders(start, home, first);
    RunKeepsSuperset(start, home, first, SecuritiesMarket);
    SweepsRestore(middle, home, second, SecuritiesMarket);
    SweepsRestore(start, home, first, FuturesMarket);
    StaysExact(middle, home, second, FuturesMarket);
    BothExact(end);
  }

  lemma StaysExact(start: Index, home: map<string, Identity>, steps: seq<Step>, d: Domain)
    requires OrdersInv(start, home) && Coherent(home) && RunConforms(start, home, steps)
    requires Contracts(start, d) == ContractsOf(start.orders, d)
    ensures Contracts(Run(start, steps), d) == ContractsOf(Run(start, steps).orders, d)
  {
    var t := Run(start, steps);
    forall m: Text ensures m in Contracts(t, d) <==> m in ContractsOf(t.orders, d) {
      NeedsIsMember(start.orders, m, d);
      RunKeepsMember(start, home, steps, d, m);
      NeedsIsMember(t.orders, m, d);
    }
  }

  lemma BothExact(i: Index)
    requires Contracts(i, FuturesMarket) == ContractsOf(i.orders, FuturesMarket)
    requires Contracts(i, SecuritiesMarket) == ContractsOf(i.orders, SecuritiesMarket)
    ensures ContractsProject(i)
  {
    forall d: Domain ensures Contracts(i, d) == ContractsOf(i.orders, d) {
      assert d == FuturesMarket || d == SecuritiesMarket;
    }
  }

  /** The steps sweep every contract the domain has at their start. */
  ghost predicate Swept(start: Index, steps: seq<Step>, d: Domain) {
    forall m :: m in Contracts(start, d) ==> Sweep(d, m) in steps
  }

  /** From any superset left by interrupted writers reconciliation restores exactly the contracts of the
      active orders, in each domain. */
  lemma ReconcileRestores(i: Index, contracts: set<Text>, home: map<string, Identity>, d: Domain)
    requires OrdersProject(i) && Known(home, i.orders) && Coherent(home)
    requires forall id :: id in home ==> HasNormalCodes(home[id])
    requires Superset(contracts, i, home, d)
    ensures Reconciled(i.byInstrument, contracts) == ContractsOf(i.orders, d)
  {
    forall m | m in contracts ensures Survives(i.byInstrument, m) <==> m in ContractsOf(i.orders, d) {
      var h :| h in home && home[h].domain == Some(d) && MemberOf(home[h]) == m;
      SurvivesIff(i, home[h]);
      NeedsIff(i.orders, home, h, d);
      NeedsIsMember(i.orders, m, d);
      OnInstrumentIff(i.orders, KeyOf(home[h]));
    }
  }

  lemma OnInstrumentIff(orders: map<string, Order>, key: Text)
    ensures OnInstrument(orders, key) != {} <==> exists id :: id in orders && KeyOf(orders[id].identity) == key
  {
    if id :| id in orders && KeyOf(orders[id].identity) == key {
      assert id in OnInstrument(orders, key);
    }
    if id :| id in OnInstrument(orders, key) {}
  }

  datatype Result = Added(isNew: bool) | UnknownInstrumentType

  class ActiveOrderIndex {
    var orders: map<string, Order>
    var byInstrument: map<Text, set<string>>
    var byAccount: map<Text, set<string>>
    var byUnderlying: map<Text, set<string>>
    var all: set<string>
    var futures: set<Text>
    var securities: set<Text>
    var processed: set<string>

    constructor ()
      ensures State() == EMPTY
    {
      orders, byInstrument, byAccount, byUnderlying := map[], map[], map[], map[];
      all, futures, securities, processed := {}, {}, {}, {};
    }

    ghost function State(): Index
      reads this
    {
      Index(orders, byInstrument, byAccount, byUnderlying, all, futures, securities, processed)
    }

    /** The part common to adding and rebuilding. */
    method Write(o: Order)
      requires o.identity.domain.Some?
      modifies this`orders, this`byInstrument, this`byAccount, this`byUnderlying, this`all, this`futures, this`securities
      ensures State() == Upsert(old(State()), o)
    {
      var underlying := Underlying(o.identity);
      orders := orders[o.id := o];
      byInstrument := Put(byInstrument, KeyOf(o.identity), o.id);
      byAccount := Put(byAccount, o.identity.account, o.id);
      all := all + {o.id};
      if o.identity.domain.value.FuturesMarket? {
        futures := futures + {MemberOf(o.identity)};
      } else {
        securities := securities + {MemberOf(o.identity)};
      }
      if underlying.Some? {
        byUnderlying := Put(byUnderlying, underlying.value, o.id);
      }
    }

    /** A redelivered event writes the same again and reports that it was not new. */
    method AddActiveOrder(o: Order, eventId: string) returns (result: Result)
      modifies this
      ensures State() == Next(old(State()), Add(o, eventId))
      ensures result == if o.identity.domain.None? then UnknownInstrumentType else Added(eventId !in old(processed))
    {
      if o.identity.domain.None? {
        return UnknownInstrumentType;
      }
      var isNew := eventId !in processed;
      Write(o);
      if isNew {
        processed := processed + {eventId};
      }
      assert processed == old(processed) + {eventId};
      return Added(isNew);
    }

    method UpsertActiveOrderForRebuild(o: Order) returns (known: bool)
      modifies this
      ensures State() == Next(old(State()), Restore(o)) && known == o.identity.domain.Some?
    {
      known := o.identity.domain.Some?;
      if known {
        Write(o);
      }
    }

    /** Nothing else runs between the reading and the script; RunRemoval is the script by itself. */
    method RemoveActiveOrder(id: string, account: Text, exchange: Text, symbol: Text, eventId: Option<string>)
      modifies this
      ensures State() == Next(old(State()), Delete(Detail(old(State()), id), id, account, exchange, symbol, eventId))
    {
      var detail := if id in orders then Some(orders[id].identity) else None;
      RunRemoval(detail, id, account, exchange, symbol, eventId);
    }

    method RunRemoval(detail: Option<Identity>, id: string, account: Text, exchange: Text, symbol: Text, eventId: Option<string>)
      modifies this
      ensures State() == Next(old(State()), Delete(detail, id, account, exchange, symbol, eventId))
    {
      var key := InstrumentKey(exchange, symbol);
      var member, underlying := RemovedMember(detail, exchange, symbol), RemovedUnderlying(detail);
      RemoveFromSets(key, underlying, id, account);
      if Members(byInstrument, key) == {} && member.Some? {
        futures := futures - {member.value};
        securities := securities - {member.value};
      }
      if eventId.Some? {
        processed := processed + {eventId.value};
      }
    }

    method RemoveFromSets(key: Text, underlying: Option<Text>, id: string, account: Text)
      modifies this`orders, this`byInstrument, this`byAccount, this`all, this`byUnderlying
      ensures orders == old(orders) - {id} && all == old(all) - {id}
      ensures byInstrument == Drop(old(byInstrument), key, id) && byAccount == Drop(old(byAccount), account, id)
      ensures byUnderlying == if underlying.Some? then Drop(old(byUnderlying), underlying.value, id) else old(byUnderlying)
    {
      orders := orders - {id};
      byInstrument := Drop(byInstrument, key, id);
      byAccount := Drop(byAccount, account, id);
      all := all - {id};
      if underlying.Some? {
        byUnderlying := Drop(byUnderlying, underlying.value, id);
      }
    }

    method ListActiveContractCodes(d: Domain) returns (codes: set<Text>)
      ensures codes == ActiveCodes(Contracts(State(), d))
    {
      var members := if d.FuturesMarket? then futures else securities;
      var pending := members;
      codes := {};
      while pending != {}
        invariant pending <= members && codes == ActiveCodes(members - pending)
        decreases |pending|
      {
        var m :| m in pending;
        var parsed := ParseOrderMember(m);
        OneMoreCode(members - pending, m);
        assert members - (pending - {m}) == (members - pending) + {m};
        if parsed.Some? && parsed.value.orderBook != [] {
          codes := codes + {parsed.value.orderBook};
        }
        pending := pending - {m};
      }
      assert members - pending == members;
    }

    /** The script for one member, or the plain removal of one that does not parse. */
    method SweepMember(d: Domain, m: Text) returns (removed: nat)
      modifies this`futures, this`securities
      ensures State() == Next(old(State()), Sweep(d, m))
      ensures removed == if ParseOrderMember(m).None? || Contracts(State(), d) != Contracts(old(State()), d) then 1 else 0
    {
      var parsed := ParseOrderMember(m);
      if parsed.Some? && Members(byInstrument, InstrumentKey(parsed.value.exchange, parsed.value.symbol)) != {} {
        return 0;
      }
      removed := if parsed.None? || m in (if d.FuturesMarket? then futures else securities) then 1 else 0;
      if d.FuturesMarket? {
        futures := futures - {m};
      } else {
        securities := securities - {m};
      }
    }

    /** What other clients do meanwhile. */
    method OthersWrite(steps: seq<Step>)
      modifies this
      ensures State() == Run(old(State()), steps)
    {
      var t := Run(Index(orders, byInstrument, byAccount, byUnderlying, all, futures, securities, processed), steps);
      orders, byInstrument, byAccount, byUnderlying := t.orders, t.byInstrument, t.byAccount, t.byUnderlying;
      all, futures, securities, processed := t.all, t.futures, t.securities, t.processed;
    }

    /** One of the two loops. `others(m)` is what other clients do just before the script for `m`. */
    method Reconcile(d: Domain, others: Text -> seq<Step>) returns (removed: nat, ghost steps: seq<Step>)
      modifies this
      ensures State() == Run(old(State()), steps) && Swept(old(State()), steps, d)
      ensures (forall m :: others(m) == []) ==>
        && State() == WithContracts(old(State()), d, Reconciled(old(byInstrument), Contracts(old(State()), d)))
        && removed == |Contracts(old(State()), d) - Contracts(State(), d)|
    {
      removed, steps := 0, [];
      ghost var start, quiet := State(), forall m :: others(m) == [];
      var members := if d.FuturesMarket? then futures else securities;
      var pending := members;
      while pending != {}
        invariant pending <= members && State() == Run(start, steps)
        invariant forall m :: m in members && m !in pending ==> Sweep(d, m) in steps
        invariant quiet ==> PartlyReconciled(start, State(), d, pending) && removed == |members - Contracts(State(), d)|
        decreases |pending|
      {
        var m :| m in pending;
        OthersWrite(others(m));
        RunSplits(start, steps, others(m));
        steps := steps + others(m);
        ghost var before := State();
        var gone := SweepMember(d, m);
        RunSplits(start, steps, [Sweep(d, m)]);
        OneStep(before, Sweep(d, m));
        steps := steps + [Sweep(d, m)];
        if quiet {
          OneMoreSwept(start, before, d, pending, m);
        }
        removed := removed + gone;
        pending := pending - {m};
      }
      if quiet {
        AllSwept(start, State(), d);
      }
    }

    /** First the futures contracts, then the securities contracts as they are by then. */
    method ReconcileActiveContracts(others: (Domain, Text) -> seq<Step>)
      returns (removed: nat, ghost first: seq<Step>, ghost second: seq<Step>)
      modifies this
      ensures State() == Run(Run(old(State()), first), second)
      ensures Swept(old(State()), first, FuturesMarket) && Swept(Run(old(State()), first), second, SecuritiesMarket)
      ensures (forall d, m :: others(d, m) == []) ==>
        && State() == old(State()).(futures := Reconciled(byInstrument, old(futures)), securities := Reconciled(byInstrument, old(securities)))
        && removed == |old(futures) - futures| + |old(securities) - securities|
    {
      var fromFutures, fromSecurities;
      fromFutures, first := Reconcile(FuturesMarket, m => others(FuturesMarket, m));
      fromSecurities, second := Reconcile(SecuritiesMarket, m => others(SecuritiesMarket, m));
      removed := fromFutures + fromSecurities;
    }
  }

  /** With nobody else writing, what is left while `pending` is still to be swept. */
  ghost predicate PartlyReconciled(start: Index, i: Index, d: Domain, pending: set<Text>) {
    && i == WithContracts(start, d, Contracts(i, d))
    && forall m :: m in Contracts(i, d) <==> m in Contracts(start, d) && (m in pending || Survives(start.byInstrument, m))
  }

  lemma OneMoreSwept(start: Index, i: Index, d: Domain, pending: set<Text>, m: Text)
    requires PartlyReconciled(start, i, d, pending) && m in pending && pending <= Contracts(start, d)
    ensures var t := Next(i, Sweep(d, m));
      && PartlyReconciled(start, t, d, pending - {m})
      && |Contracts(start, d) - Contracts(t, d)|
         == |Contracts(start, d) - Contracts(i, d)| + (if Contracts(t, d) != Contracts(i, d) then 1 else 0)
      && (ParseOrderMember(m).None? ==> Contracts(t, d) != Contracts(i, d))
  {
    var t := Next(i, Sweep(d, m));
    assert m in Contracts(i, d);
    if !Survives(i.byInstrument, m) {
      assert Contracts(start, d) - Contracts(t, d) == (Contracts(start, d) - Contracts(i, d)) + {m};
    }
  }

  lemma AllSwept(start: Index, i: Index, d: Domain)
    requires PartlyReconciled(start, i, d, {})
    ensures Contracts(i, d) == Reconciled(start.byInstrument, Contracts(start, d))
  {}

  lemma OneStep(i: Index, step: Step)
    ensures Run(i, [step]) == Next(i, step)
  {
    assert Run(i, [step][..0]) == i;
  }

  lemma {:induction false} RunSplits(i: Index, a: seq<Step>, b: seq<Step>)
    ensures Run(i, a + b) == Run(Run(i, a), b)
  {
    if b == [] {
      assert a + b == a;
    } else {
      assert (a + b)[..|a + b| - 1] == a + b[..|b| - 1];
      RunSplits(i, a, b[..|b| - 1]);
    }
  }

  lemma OneMoreCode(done: set<Text>, m: Text)
    ensures ActiveCodes(done + {m}) == ActiveCodes(done)
      + if ParseOrderMember(m).Some? && ParseOrderMember(m).value.orderBook != [] then {ParseOrderMember(m).value.orderBook} else {}
  {}
}

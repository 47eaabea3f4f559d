/** The dirty contracts of the realtime PnL store: a versioned queue of contract members and a two-way
    relation between dirty contracts and the accounts that traded them. */
module DirtyRelation {
  import opened Options
  import opened PercentCodec
  import opened SetTables
  import Q = DirtyQueue

  /** `accountsOf` holds one Redis set per dirty contract, of account ids as given; `contractsOf` one per
      account, whose key strips the id. */
  datatype Relation = Relation(
    queue: Q.Queue,
    accountsOf: map<string, set<Text>>,
    contractsOf: map<string, set<string>>)

  const EMPTY := Relation(Q.EMPTY, map[], map[])

  datatype Step =
    | Mark(exchange: Text, orderBook: Text, account: Text)
    | MarkOnce(event: string, exchange: Text, orderBook: Text, account: Text)
    | Complete(exchange: Text, orderBook: Text, version: nat)
    | Bump
    | FactMarked(event: string)
    | ExpireMarker(event: string)

  function Marked(r: Relation, exchange: Text, orderBook: Text, account: Text): Relation {
    var c := ContractMember(exchange, orderBook);
    Relation(Q.Marked(Q.CONTRACTS, r.queue, c), Put(r.accountsOf, c, account), Put(r.contractsOf, Strip(account), c))
  }

  function Completed(r: Relation, exchange: Text, orderBook: Text, version: nat): Relation {
    var c := ContractMember(exchange, orderBook);
    if Q.Holds(r.queue, c, version) then
      Relation(Q.Completed(Q.CONTRACTS, r.queue, c, version), r.accountsOf - {c},
               DropAll(r.contractsOf, Members(r.accountsOf, c), c))
    else r
  }

  function QueueStep(step: Step): Q.Step {
    match step
    case Mark(ex, ob, _) => Q.Mark(ContractMember(ex, ob))
    case MarkOnce(e, ex, ob, _) => Q.MarkOnce(ContractMember(ex, ob), e)
    case Complete(ex, ob, version) => Q.Complete(ContractMember(ex, ob), version)
    case Bump => Q.Bump
    case FactMarked(e) => Q.Processed(e)
    case ExpireMarker(e) => Q.ExpireMarker(e)
  }

  /** The step does mark, which a redelivered event does not. */
  predicate Marking(r: Relation, step: Step) {
    step.Mark? || (step.MarkOnce? && step.event !in r.queue.markers)
  }

  function Next(r: Relation, step: Step): Relation {
    if Marking(r, step) then
      Marked(r, step.exchange, step.orderBook, step.account).(queue := Q.Next(Q.CONTRACTS, r.queue, QueueStep(step)))
    else if step.Complete? then Completed(r, step.exchange, step.orderBook, step.version)
    else r.(queue := Q.Next(Q.CONTRACTS, r.queue, QueueStep(step)))
  }

  function Run(steps: seq<Step>): Relation {
    if steps == [] then EMPTY else Next(Run(steps[..|steps| - 1]), steps[|steps| - 1])
  }

  function QueueSteps(steps: seq<Step>): seq<Q.Step> {
    seq(|steps|, i requires 0 <= i < |steps| => QueueStep(steps[i]))
  }

  /** The contracts are a versioned dirty queue, so no run loses a mark. */
  lemma {:induction false} QueueRefines(steps: seq<Step>)
    ensures Run(steps).queue == Q.Run(Q.CONTRACTS, QueueSteps(steps))
  {
    if steps != [] {
      QueueRefines(steps[..|steps| - 1]);
      assert QueueSteps(steps)[..|steps| - 1] == QueueSteps(steps[..|steps| - 1]);
    }
  }

  // --- Invariants.

  /** A contract is dirty exactly when it has a version and exactly when it has accounts. */
  ghost predicate Indexed(r: Relation) {
    && r.queue.dirty == r.queue.versions.Keys == r.accountsOf.Keys
    && (forall c :: c in r.accountsOf ==> r.accountsOf[c] != {})
    && (forall k :: k in r.contractsOf ==> r.contractsOf[k] != {})
  }

  ghost predicate KeysStripped(r: Relation) {
    forall a: Text :: a in r.contractsOf ==> Strip(a) == a
  }

  /** The two directions are one relation. */
  ghost predicate Agrees(r: Relation) {
    forall c: string, a: Text :: a in Members(r.accountsOf, c) <==> c in Members(r.contractsOf, a)
  }

  /** Whatever ids are given, an account of a dirty contract sees that contract. */
  ghost predicate AccountsSee(r: Relation) {
    forall c: string, a: Text :: a in Members(r.accountsOf, c) ==> c in Members(r.contractsOf, Strip(a))
  }

  lemma StepKeepsIndexed(r: Relation, step: Step)
    requires Indexed(r)
    ensures Indexed(Next(r, step))
  {
    if step.Complete? {
      CompleteKeepsIndexed(r, step.exchange, step.orderBook, step.version);
    }
  }

  lemma CompleteKeepsIndexed(r: Relation, exchange: Text, orderBook: Text, version: nat)
    ensures Indexed(r) ==> Indexed(Completed(r, exchange, orderBook, version))
  {}

  lemma StepKeepsStripped(r: Relation, step: Step)
    requires KeysStripped(r)
    ensures KeysStripped(Next(r, step))
  {
    if Marking(r, step) {
      StripStrips(step.account);
      StripStrips(Strip(step.account));
    }
  }

  lemma StepKeepsAccountsSee(r: Relation, step: Step)
    requires AccountsSee(r)
    ensures AccountsSee(Next(r, step))
  {
    var t := Next(r, step);
    if step.Complete? {
      CompleteKeepsOthers(r, step.exchange, step.orderBook, step.version);
    }
    forall c: string, a: Text | a in Members(t.accountsOf, c) ensures c in Members(t.contractsOf, Strip(a)) {
      if a in Members(r.accountsOf, c) {
        assert c in Members(r.contractsOf, Strip(a));
      }
    }
  }

  lemma CompleteKeepsOthers(r: Relation, exchange: Text, orderBook: Text, version: nat)
    ensures var c, t := ContractMember(exchange, orderBook), Completed(r, exchange, orderBook, version);
      forall d: string, k: string :: d != c ==> (d in Members(t.contractsOf, k) <==> d in Members(r.contractsOf, k))
  {}

  /** What completing contract `c` leaves behind: its entry stays under exactly the keys that no account of
      `c` is written as. */
  lemma CompleteLeavesIff(r: Relation, exchange: Text, orderBook: Text, version: nat, k: Text)
    requires Q.Holds(r.queue, ContractMember(exchange, orderBook), version)
    ensures var c := ContractMember(exchange, orderBook);
      c in Members(Completed(r, exchange, orderBook, version).contractsOf, k)
      <==> c in Members(r.contractsOf, k) && k !in Members(r.accountsOf, c)
  {}

  /** Marking keeps the two directions in agreement exactly when the account id has no blanks around it. */
  lemma MarkAgreesIff(r: Relation, exchange: Text, orderBook: Text, account: Text)
    requires Agrees(r) && KeysStripped(r)
    ensures Agrees(Marked(r, exchange, orderBook, account)) <==> Strip(account) == account
  {
    var c, t := ContractMember(exchange, orderBook), Marked(r, exchange, orderBook, account);
    if Strip(account) != account {
      assert account in Members(t.accountsOf, c);
      assert account !in r.contractsOf;
      assert c !in Members(t.contractsOf, account);
    } else {
      forall d: string, a: Text ensures a in Members(t.accountsOf, d) <==> d in Members(t.contractsOf, a) {
        assert a in Members(r.accountsOf, d) <==> d in Members(r.contractsOf, a);
      }
    }
  }

  lemma CompleteKeepsAgrees(r: Relation, exchange: Text, orderBook: Text, version: nat)
    requires Agrees(r)
    ensures Agrees(Completed(r, exchange, orderBook, version))
  {
    var c, t := ContractMember(exchange, orderBook), Completed(r, exchange, orderBook, version);
    CompleteKeepsOthers(r, exchange, orderBook, version);
    forall d: string, a: Text ensures a in Members(t.accountsOf, d) <==> d in Members(t.contractsOf, a) {
      assert a in Members(r.accountsOf, d) <==> d in Members(r.contractsOf, a);
      if d == c && Q.Holds(r.queue, c, version) {
        CompleteLeavesIff(r, exchange, orderBook, version, a);
      }
    }
  }

  lemma StepAgreesIff(r: Relation, step: Step)
    requires Agrees(r) && KeysStripped(r)
    ensures Agrees(Next(r, step)) <==> (Marking(r, step) ==> Strip(step.account) == step.account)
  {
    if Marking(r, step) {
      MarkAgreesIff(r, step.exchange, step.orderBook, step.account);
      var m := Marked(r, step.exchange, step.orderBook, step.account);
      assert Next(r, step).accountsOf == m.accountsOf && Next(r, step).contractsOf == m.contractsOf;
    } else if step.Complete? {
      CompleteKeepsAgrees(r, step.exchange, step.orderBook, step.version);
    }
  }

  // --- Whole runs.

  lemma {:induction false} RunInvariant(steps: seq<Step>)
    ensures Indexed(Run(steps)) && KeysStripped(Run(steps)) && AccountsSee(Run(steps))
  {
    if steps != [] {
      RunInvariant(steps[..|steps| - 1]);
      StepKeepsIndexed(Run(steps[..|steps| - 1]), steps[|steps| - 1]);
      StepKeepsStripped(Run(steps[..|steps| - 1]), steps[|steps| - 1]);
      StepKeepsAccountsSee(Run(steps[..|steps| - 1]), steps[|steps| - 1]);
    }
  }

  /** Every mark that took effect in the run named a stripped account. */
  ghost predicate StrippedMarks(steps: seq<Step>) {
    forall i :: 0 <= i < |steps| && Marking(Run(steps[..i]), steps[i]) ==> Strip(steps[i].account) == steps[i].account
  }

  ghost predicate AlwaysAgrees(steps: seq<Step>) {
    forall i :: 0 <= i <= |steps| ==> Agrees(Run(steps[..i]))
  }

  lemma RunNext(steps: seq<Step>, i: nat)
    requires i < |steps|
    ensures Run(steps[..i + 1]) == Next(Run(steps[..i]), steps[i])
  {
    assert steps[..i + 1][..i] == steps[..i];
  }

  lemma {:induction false} AgreesUpTo(steps: seq<Step>, n: nat)
    requires StrippedMarks(steps) && n <= |steps|
    ensures Agrees(Run(steps[..n]))
  {
    if n > 0 {
      AgreesUpTo(steps, n - 1);
      RunNext(steps, n - 1);
      RunInvariant(steps[..n - 1]);
      StrippedStepAgrees(Run(steps[..n - 1]), steps[n - 1]);
    }
  }

  lemma StrippedStepAgrees(r: Relation, step: Step)
    requires Agrees(r) && KeysStripped(r) && (Marking(r, step) ==> Strip(step.account) == step.account)
    ensures Agrees(Next(r, step))
  {
    StepAgreesIff(r, step);
  }

  /** The two-way relation holds throughout a run exactly when every effective mark gave a stripped id. */
  lemma TwoWayIff(steps: seq<Step>)
    ensures AlwaysAgrees(steps) <==> StrippedMarks(steps)
  {
    if StrippedMarks(steps) {
      forall i | 0 <= i <= |steps| ensures Agrees(Run(steps[..i])) {
        AgreesUpTo(steps, i);
      }
    }
    if AlwaysAgrees(steps) {
      forall i | 0 <= i < |steps| && Marking(Run(steps[..i]), steps[i])
        ensures Strip(steps[i].account) == steps[i].account
      {
        RunNext(steps, i);
        RunInvariant(steps[..i]);
        assert Agrees(Run(steps[..i])) && Agrees(Run(steps[..i + 1]));
        StepAgreesIff(Run(steps[..i]), steps[i]);
      }
    }
  }

  /** What a strict snapshot asks: an account has pending position structure. */
  predicate StructureDirty(r: Relation, account: Text) {
    Members(r.contractsOf, Strip(account)) != {}
  }

  /** With stripped ids the answer is exact after any run: some dirty contract was traded by the account. */
  lemma StructureDirtyIff(steps: seq<Step>, account: Text)
    requires StrippedMarks(steps) && Strip(account) == account
    ensures var r := Run(steps);
      StructureDirty(r, account) <==> exists c :: c in r.queue.dirty && account in Members(r.accountsOf, c)
  {
    AgreesUpTo(steps, |steps|);
    assert steps[..|steps|] == steps;
    RunInvariant(steps);
    var r := Run(steps);
    if StructureDirty(r, account) {
      var c :| c in Members(r.contractsOf, account);
      assert account in Members(r.accountsOf, c);
    }
    if c :| c in r.queue.dirty && account in Members(r.accountsOf, c) {
      assert c in Members(r.contractsOf, account);
    }
  }

  /** The step completes contract `c` while `k` is among its accounts as written. */
  predicate Cleans(r: Relation, step: Step, c: string, k: Text) {
    step.Complete? && ContractMember(step.exchange, step.orderBook) == c && Q.Holds(r.queue, c, step.version)
    && k in Members(r.accountsOf, c)
  }

  /** An entry of an account's set goes exactly in such a step, whatever else happens. */
  lemma EntryGoesIff(r: Relation, step: Step, c: string, k: Text)
    requires c in Members(r.contractsOf, k)
    ensures c !in Members(Next(r, step).contractsOf, k) <==> Cleans(r, step, c, k)
  {
    if step.Complete? {
      var d := ContractMember(step.exchange, step.orderBook);
      if Q.Holds(r.queue, d, step.version) {
        if c == d {
          CompleteLeavesIff(r, step.exchange, step.orderBook, step.version, k);
        } else {
          CompleteKeepsOthers(r, step.exchange, step.orderBook, step.version);
        }
      }
    } else if Marking(r, step) {
      PutMembers(r.contractsOf, Strip(step.account), ContractMember(step.exchange, step.orderBook), k);
    }
  }

  /** So an entry stays until the contract is completed with the account's stripped id among its accounts. */
  lemma {:induction false} EntryStays(steps: seq<Step>, i: nat, j: nat, c: string, k: Text)
    requires i <= j <= |steps| && c in Members(Run(steps[..i]).contractsOf, k)
    requires forall n :: i <= n < j ==> !Cleans(Run(steps[..n]), steps[n], c, k)
    ensures c in Members(Run(steps[..j]).contractsOf, k)
    decreases j - i
  {
    if i < j {
      EntryGoesIff(Run(steps[..i]), steps[i], c, k);
      RunNext(steps, i);
      EntryStays(steps, i + 1, j, c, k);
    }
  }

  /** The leak of an unstripped id: from its mark on the account reads as dirty, completed or not, until the
      contract is completed while the stripped id has been marked for it too. */
  lemma UnstrippedLeaks(steps: seq<Step>, i: nat, j: nat)
    requires i < j <= |steps| && Marking(Run(steps[..i]), steps[i])
    requires var step := steps[i];
      forall n :: i < n < j ==> !Cleans(Run(steps[..n]), steps[n], ContractMember(step.exchange, step.orderBook), Strip(step.account))
    ensures StructureDirty(Run(steps[..j]), steps[i].account)
  {
    var step := steps[i];
    var c := ContractMember(step.exchange, step.orderBook);
    RunNext(steps, i);
    PutMembers(Run(steps[..i]).contractsOf, Strip(step.account), c, Strip(step.account));
    EntryStays(steps, i + 1, j, c, Strip(step.account));
  }

  /** Completed at once, the contract is clean and the account is not: its own completion does not clean it. */
  lemma CompletedYetDirty(exchange: Text, orderBook: Text, account: Text)
    requires Strip(account) != account
    ensures var r := Run([Mark(exchange, orderBook, account), Complete(exchange, orderBook, 1)]);
      r.queue.dirty == {} && StructureDirty(r, account)
  {
    var steps := [Mark(exchange, orderBook, account), Complete(exchange, orderBook, 1)];
    var c := ContractMember(exchange, orderBook);
    RunNext(steps, 0);
    RunNext(steps, 1);
    assert steps[..2] == steps;
    assert Members(Run(steps[..1]).accountsOf, c) == {account};
    UnstrippedLeaks(steps, 0, 2);
  }

  /** A later mark with the stripped id, once completed, cleans it. */
  lemma StrippedMarkCleans(exchange: Text, orderBook: Text, account: Text)
    requires Strip(account) != account
    ensures !StructureDirty(
      Run([Mark(exchange, orderBook, account), Mark(exchange, orderBook, Strip(account)), Complete(exchange, orderBook, 2)]), account)
  {
    var steps := [Mark(exchange, orderBook, account), Mark(exchange, orderBook, Strip(account)), Complete(exchange, orderBook, 2)];
    var c, k := ContractMember(exchange, orderBook), Strip(account);
    RunNext(steps, 0);
    RunNext(steps, 1);
    RunNext(steps, 2);
    assert steps[..3] == steps;
    StripStrips(account);
    StripStrips(k);
    assert Members(Run(steps[..2]).contractsOf, k) == {c} && k in Members(Run(steps[..2]).accountsOf, c);
  }

  /** The codes a worker reads from a listed member name that member again when it completes them. */
  lemma ListedCompletes(exchange: Text, orderBook: Text)
    ensures var p := ParseContractMember(ContractMember(exchange, orderBook));
      p.Some? && ContractMember(p.value.first, p.value.rest) == ContractMember(exchange, orderBook)
  {
    ContractMemberRoundTrip(exchange, orderBook);
    NormalIdempotent(exchange);
    NormalIdempotent(orderBook);
  }

  class PnlDirtyStore {
    var cacheVersion: nat
    var dirtyContracts: set<string>
    var contractVersions: map<string, nat>
    var processedEvents: set<string>
    var accountsOf: map<string, set<Text>>
    var contractsOf: map<string, set<string>>
    var dirtyAccountFacts: set<string>
    var accountFactVersions: map<string, nat>

    constructor ()
      ensures Contracts() == EMPTY && Facts() == Q.EMPTY
    {
      cacheVersion, dirtyContracts, contractVersions, processedEvents := 0, {}, map[], {};
      accountsOf, contractsOf := map[], map[];
      dirtyAccountFacts, accountFactVersions := {}, map[];
    }

    ghost function Contracts(): Relation
      reads this
    {
      Relation(Q.Queue(dirtyContracts, contractVersions, cacheVersion, processedEvents), accountsOf, contractsOf)
    }

    ghost function Facts(): Q.Queue
      reads this
    {
      Q.Queue(dirtyAccountFacts, accountFactVersions, 0, processedEvents)
    }

    method BumpPositionCacheVersion() returns (version: nat)
      modifies this`cacheVersion
      ensures Contracts() == Next(old(Contracts()), Bump) && version == cacheVersion == old(cacheVersion) + 1
    {
      cacheVersion := cacheVersion + 1;
      version := cacheVersion;
    }

    method MarkContractDirty(exchangeId: Text, orderBookId: Text, accountId: Text) returns (version: nat)
      modifies this`cacheVersion, this`dirtyContracts, this`contractVersions, this`accountsOf, this`contractsOf
      ensures Contracts() == Next(old(Contracts()), Mark(exchangeId, orderBookId, accountId))
      ensures Q.Holds(Contracts().queue, ContractMember(exchangeId, orderBookId), version)
    {
      var member := ContractMember(exchangeId, orderBookId);
      cacheVersion := cacheVersion + 1;
      dirtyContracts := dirtyContracts + {member};
      contractVersions := contractVersions[member := cacheVersion];
      accountsOf := Put(accountsOf, member, accountId);
      contractsOf := Put(contractsOf, Strip(accountId), member);
      version := cacheVersion;
    }

    method MarkContractDirtyOnce(eventId: string, exchangeId: Text, orderBookId: Text, accountId: Text) returns (version: Option<nat>)
      modifies this`cacheVersion, this`dirtyContracts, this`contractVersions, this`accountsOf, this`contractsOf, this`processedEvents
      ensures Contracts() == Next(old(Contracts()), MarkOnce(eventId, exchangeId, orderBookId, accountId))
      ensures version.None? <==> eventId in old(processedEvents)
      ensures Facts() == if version.None? then old(Facts()) else Q.Next(Q.ACCOUNT_FACTS, old(Facts()), Q.Processed(eventId))
    {
      if eventId in processedEvents {
        return None;
      }
      var marked := MarkContractDirty(exchangeId, orderBookId, accountId);
      processedEvents := processedEvents + {eventId};
      return Some(marked);
    }

    method MarkAccountFactDirtyOnce(eventId: string, accountId: string) returns (version: Option<nat>)
      modifies this`dirtyAccountFacts, this`accountFactVersions, this`processedEvents
      ensures Facts() == Q.Next(Q.ACCOUNT_FACTS, old(Facts()), Q.MarkOnce(accountId, eventId))
      ensures version.None? <==> eventId in old(processedEvents)
      ensures Contracts() == if version.None? then old(Contracts()) else Next(old(Contracts()), FactMarked(eventId))
    {
      if eventId in processedEvents {
        return None;
      }
      var next := if accountId in accountFactVersions then accountFactVersions[accountId] + 1 else 1;
      accountFactVersions := accountFactVersions[accountId := next];
      dirtyAccountFacts := dirtyAccountFacts + {accountId};
      processedEvents := processedEvents + {eventId};
      return Some(next);
    }

    method CompleteDirtyAccountFact(accountId: string, expectedVersion: nat) returns (completed: bool)
      modifies this`dirtyAccountFacts
      ensures Facts() == Q.Next(Q.ACCOUNT_FACTS, old(Facts()), Q.Complete(accountId, expectedVersion))
      ensures completed == Q.Holds(old(Facts()), accountId, expectedVersion)
    {
      completed := accountId in accountFactVersions && accountFactVersions[accountId] == expectedVersion;
      if completed {
        dirtyAccountFacts := dirtyAccountFacts - {accountId};
      }
    }

    /** The script removes the contract under each of its accounts, one set at a time. */
    method CompleteDirtyContract(exchangeId: Text, orderBookId: Text, expectedVersion: nat) returns (completed: bool)
      requires Indexed(Contracts())
      modifies this`dirtyContracts, this`contractVersions, this`accountsOf, this`contractsOf
      ensures Contracts() == Next(old(Contracts()), Complete(exchangeId, orderBookId, expectedVersion))
      ensures completed == Q.Holds(old(Contracts()).queue, ContractMember(exchangeId, orderBookId), expectedVersion)
    {
      var member := ContractMember(exchangeId, orderBookId);
      if member !in contractVersions || contractVersions[member] != expectedVersion {
        return false;
      }
      var accounts := Members(accountsOf, member);
      dirtyContracts := dirtyContracts - {member};
      contractVersions := contractVersions - {member};
      var pending := accounts;
      assert DropAll(contractsOf, {}, member) == contractsOf;
      while pending != {}
        invariant pending <= accounts
        invariant dirtyContracts == old(dirtyContracts) - {member} && contractVersions == old(contractVersions) - {member}
        invariant accountsOf == old(accountsOf)
        invariant contractsOf == DropAll(old(contractsOf), accounts - pending, member)
        decreases |pending|
      {
        var account: Text :| account in pending;
        contractsOf := Drop(contractsOf, account, member);
        DropOneMore(old(contractsOf), accounts - pending, account, member);
        assert accounts - (pending - {account}) == accounts - pending + {account};
        pending := pending - {account};
      }
      assert accounts - pending == accounts;
      accountsOf := accountsOf - {member};
      return true;
    }
  }
}

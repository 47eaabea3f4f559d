/** Redis trigger state of the cash-security valuation (the versioned dirty queue and the writer lease)
    and the durable fence row in PostgreSQL. */
module ValuationStore {
  import opened Options
  import opened PercentCodec
  import opened TextOrder

  /** A dirty version reads `number:reason`; a lease value reads `owner:token`. */
  datatype Version = Version(number: nat, reason: string)
  datatype Lease = Lease(owner: string, token: nat)

  datatype Store = Store(
    dirty: map<string, Version>,
    sequence: nat,
    lease: Option<Lease>,
    tokens: nat)

  function MarkDirty(s: Store, account: string, reason: string): Store {
    s.(sequence := s.sequence + 1, dirty := s.dirty[account := Version(s.sequence + 1, reason)])
  }

  /** The script's loop: one fresh version per account, in argument order. */
  function MarkAll(s: Store, accounts: seq<string>, reason: string): Store {
    if accounts == [] then s
    else MarkDirty(MarkAll(s, accounts[..|accounts| - 1], reason), accounts[|accounts| - 1], reason)
  }

  predicate Completes(s: Store, account: string, expected: Version) {
    account in s.dirty && s.dirty[account] == expected
  }

  function CompleteDirty(s: Store, account: string, expected: Version): Store {
    if Completes(s, account, expected) then s.(dirty := s.dirty - {account}) else s
  }

  function AcquireLease(s: Store, owner: string): Store {
    if s.lease.Some? then s
    else s.(tokens := s.tokens + 1, lease := Some(Lease(owner, s.tokens + 1)))
  }

  function ReleaseLease(s: Store, lease: Lease): Store {
    if s.lease == Some(lease) then s.(lease := None) else s
  }

  /** The fence row only moves to a token at least as large. */
  predicate Activates(row: Option<Lease>, lease: Lease) {
    row.None? || row.value.token <= lease.token
  }

  function Activated(row: Option<Lease>, lease: Lease): Option<Lease> {
    if Activates(row, lease) then Some(lease) else row
  }

  /** The lease is taken only while free, under the next token, and given back only by its owner with its
      token. */
  lemma LeaseCases(s: Store, owner: string, token: nat)
    ensures s.lease == None ==> AcquireLease(s, owner) == s.(lease := Some(Lease(owner, s.tokens + 1)), tokens := s.tokens + 1)
    ensures s.lease != None ==> AcquireLease(s, owner) == s
    ensures s.lease == Some(Lease(owner, token)) ==> ReleaseLease(s, Lease(owner, token)) == s.(lease := None)
    ensures s.lease != Some(Lease(owner, token)) ==> ReleaseLease(s, Lease(owner, token)) == s
  {}

  /** The fence moves to every token that is not smaller, the same one included, and to no other. */
  lemma FenceCases(row: Option<Lease>, lease: Lease)
    ensures Activates(row, lease) <==> !(row.Some? && row.value.token > lease.token)
    ensures Activated(row, lease) == if row.Some? && row.value.token > lease.token then row else Some(lease)
  {}

  /** A completion clears its account exactly if the version read is still in force. */
  lemma CompleteCases(s: Store, account: string, expected: Version)
    ensures var t := CompleteDirty(s, account, expected);
      if account in s.dirty && s.dirty[account] == expected
      then account !in t.dirty && t == s.(dirty := t.dirty) && forall a :: a != account ==> (a in t.dirty <==> a in s.dirty) && (a in s.dirty ==> t.dirty[a] == s.dirty[a])
      else t == s
  {}

  /** Marking many accounts in one script takes as many versions and leaves the lease alone. */
  lemma {:induction false} MarkAllCounts(s: Store, accounts: seq<string>, reason: string)
    ensures var t := MarkAll(s, accounts, reason);
      t.sequence == s.sequence + |accounts| && t.lease == s.lease && t.tokens == s.tokens
  {
    if accounts != [] {
      MarkAllCounts(s, accounts[..|accounts| - 1], reason);
    }
  }

  lemma {:induction false} MarkAllKeys(s: Store, accounts: seq<string>, reason: string)
    ensures MarkAll(s, accounts, reason).dirty.Keys == s.dirty.Keys + (set a | a in accounts)
    ensures forall a :: a in s.dirty && a !in accounts ==> MarkAll(s, accounts, reason).dirty[a] == s.dirty[a]
  {
    if accounts != [] {
      var front, a := accounts[..|accounts| - 1], accounts[|accounts| - 1];
      assert accounts == front + [a];
      MarkAllKeys(s, front, reason);
    }
  }

  /** Each account gets a version of its own, in argument order, newer than every version before. */
  lemma {:induction false} MarkAllFresh(s: Store, accounts: seq<string>, reason: string, i: nat)
    requires i < |accounts| && forall j, k :: 0 <= j < k < |accounts| ==> accounts[j] != accounts[k]
    ensures Completes(MarkAll(s, accounts, reason), accounts[i], Version(s.sequence + i + 1, reason))
  {
    var front := accounts[..|accounts| - 1];
    MarkAllCounts(s, front, reason);
    if i < |front| {
      MarkAllFresh(s, front, reason, i);
    }
  }

  /** The ids a request marks: stripped, without blank ones, each once, in sorted order. */
  function Requested(ids: seq<Text>): set<string> {
    set id | id in ids && Strip(id) != [] :: Strip(id)
  }

  /** An id is marked exactly if it is not empty, has no blanks at its ends, and some given id is it between
      blanks. */
  lemma RequestedIff(ids: seq<Text>, id: Text)
    ensures id in Requested(ids) <==>
      && id != [] && !Blank(id[0]) && !Blank(id[|id| - 1])
      && exists x, a, b :: x in ids && AllBlank(a) && AllBlank(b) && x == a + id + b
  {
    if id in Requested(ids) {
      var x :| x in ids && Strip(x) == id && id != [];
      StripSplits(x);
      StripStrips(x);
    }
    if x, a, b :| id != [] && Stripped(id) && x in ids && AllBlank(a) && AllBlank(b) && x == a + id + b {
      StripIs(a, id, b);
      assert Strip(x) == id;
    }
  }

  /** A dirty account is in the batch exactly when fewer than a batch of dirty accounts sort before it; the
      others wait until those are completed. */
  lemma ListedIff(s: Store, batch: nat, account: string)
    ensures account in First(s.dirty.Keys, batch) <==> account in s.dirty && |Before(s.dirty.Keys, account)| < batch
  {
    FirstIff(s.dirty.Keys, batch, account);
  }

  class CashSecurityValuationStore {
    var dirtyAccounts: set<string>
    var dirtyVersions: map<string, Version>
    var dirtySequence: nat
    var writerLease: Option<Lease>
    var fenceCounter: nat

    constructor ()
      ensures Valid() && State() == Store(map[], 0, None, 0)
    {
      dirtyAccounts, dirtyVersions, dirtySequence := {}, map[], 0;
      writerLease, fenceCounter := None, 0;
    }

    /** The set and the version hash are only ever changed together. */
    ghost predicate Valid()
      reads this
    {
      dirtyAccounts == dirtyVersions.Keys
    }

    ghost function State(): Store
      reads this
    {
      Store(dirtyVersions, dirtySequence, writerLease, fenceCounter)
    }

    /** The script's loop over distinct ids. */
    method MarkEach(ids: seq<string>, reason: string) returns (versions: map<string, Version>)
      requires Valid()
      requires forall i, j :: 0 <= i < j < |ids| ==> ids[i] != ids[j]
      modifies this
      ensures Valid() && State() == MarkAll(old(State()), ids, reason)
      ensures versions.Keys == (set a | a in ids) && forall a :: a in versions ==> Completes(State(), a, versions[a])
    {
      versions := map[];
      for i := 0 to |ids|
        invariant Valid() && State() == MarkAll(old(State()), ids[..i], reason)
        invariant versions.Keys == (set a | a in ids[..i])
        invariant forall a :: a in versions ==> Completes(State(), a, versions[a])
      {
        assert ids[..i + 1][..i] == ids[..i] && ids[..i + 1] == ids[..i] + [ids[i]];
        dirtySequence := dirtySequence + 1;
        var value := Version(dirtySequence, reason);
        dirtyAccounts := dirtyAccounts + {ids[i]};
        dirtyVersions := dirtyVersions[ids[i] := value];
        versions := versions[ids[i] := value];
      }
      assert ids[..|ids|] == ids;
    }

    method MarkAccountsDirty(accountIds: seq<Text>, reason: string) returns (versions: map<string, Version>)
      requires Valid()
      modifies this
      ensures Valid() && State() == MarkAll(old(State()), Sorted(Requested(accountIds)), reason)
      ensures versions.Keys == Requested(accountIds) && forall a :: a in versions ==> Completes(State(), a, versions[a])
    {
      var ids := Sorted(Requested(accountIds));
      SortedSorts(Requested(accountIds));
      AscendingDistinct(ids);
      if ids == [] {
        return map[];
      }
      versions := MarkEach(ids, reason);
    }

    /** The first accounts in sorted order, each with its version. */
    method ListDirtyAccounts(batchSize: nat) returns (tasks: seq<(string, Version)>)
      requires Valid()
      ensures |tasks| == |First(dirtyAccounts, batchSize)|
      ensures forall i :: 0 <= i < |tasks| ==>
        tasks[i].0 == First(dirtyAccounts, batchSize)[i] && Completes(State(), tasks[i].0, tasks[i].1)
    {
      var ids := First(dirtyAccounts, batchSize);
      tasks := [];
      for i := 0 to |ids|
        invariant |tasks| == i
        invariant forall j :: 0 <= j < i ==> tasks[j].0 == ids[j] && Completes(State(), tasks[j].0, tasks[j].1)
      {
        FirstIff(dirtyAccounts, batchSize, ids[i]);
        tasks := tasks + [(ids[i], dirtyVersions[ids[i]])];
      }
    }

    method CompleteDirtyAccount(accountId: string, expectedVersion: Version) returns (completed: bool)
      requires Valid()
      modifies this
      ensures Valid() && State() == CompleteDirty(old(State()), accountId, expectedVersion)
      ensures completed == Completes(old(State()), accountId, expectedVersion)
    {
      if accountId !in dirtyVersions || dirtyVersions[accountId] != expectedVersion {
        return false;
      }
      dirtyAccounts := dirtyAccounts - {accountId};
      dirtyVersions := dirtyVersions - {accountId};
      return true;
    }

    method AcquireWriterLease(owner: string) returns (token: Option<nat>)
      requires Valid()
      modifies this
      ensures Valid() && State() == AcquireLease(old(State()), owner)
      ensures token == if old(writerLease).Some? then None else Some(old(fenceCounter) + 1)
    {
      if writerLease.Some? {
        return None;
      }
      fenceCounter := fenceCounter + 1;
      writerLease := Some(Lease(owner, fenceCounter));
      return Some(fenceCounter);
    }

    method ReleaseWriterLease(owner: string, fencingToken: nat) returns (released: bool)
      requires Valid()
      modifies this
      ensures Valid() && State() == ReleaseLease(old(State()), Lease(owner, fencingToken))
      ensures released == (old(writerLease) == Some(Lease(owner, fencingToken)))
    {
      released := writerLease == Some(Lease(owner, fencingToken));
      if released {
        writerLease := None;
      }
    }
  }

  class CashSecurityValuationFenceRepository {
    var row: Option<Lease>

    constructor ()
      ensures row == None
    {
      row := None;
    }

    method Activate(owner: string, fencingToken: nat) returns (activated: bool)
      modifies this
      ensures row == Activated(old(row), Lease(owner, fencingToken))
      ensures activated == IsCurrent(owner, fencingToken)
      ensures activated <==> old(row).None? || old(row).value.token <= fencingToken
      ensures row == if activated then Some(Lease(owner, fencingToken)) else old(row)
      ensures old(row).Some? ==> row.Some? && old(row).value.token <= row.value.token
    {
      if row.None? {
        row := Some(Lease(owner, fencingToken));
        return true;
      }
      if row.value.token > fencingToken {
        return false;
      }
      row := Some(Lease(owner, fencingToken));
      return true;
    }

    predicate IsCurrent(owner: string, fencingToken: nat)
      reads this
    {
      row.Some? && row.value.owner == owner && row.value.token == fencingToken
    }
  }
}

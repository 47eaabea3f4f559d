/** The realtime PnL store as Redis holds it: cycle scripts, single removals and the index rebuild. */
module PnlStore {
  import opened Options
  import opened PercentCodec
  import opened PnlIndex
  import opened PnlCycle

  /** The unfenced write raises when the position facts have moved on. */
  datatype Result<T> = Ok(value: T) | StaleFacts

  type Positive = n: nat | n > 0 witness 1

  /** How one attempt of the rebuild ends. `Bumped`: other clients raise the watched cache version before the
      EXEC, which aborts. `Dropped`: the connection fails while the key is watched, which the client library
      reports as the same abort, whether or not the EXEC was applied; `bumps` is how often the version is
      raised before the next attempt reads it. */
  datatype Attempt =
    | Clean
    | Bumped(times: Positive)
    | Dropped(applied: bool, bumps: nat)

  class RealtimePnlStore {
    var sets: map<Key, set<string>>
    var accountIndexKeys: set<Key>
    var contractIndexKeys: set<Key>
    var marginCodes: set<Text>
    var hashes: map<Entity, Snapshot>
    var realtimeVersions: map<Entity, nat>
    var dirty: set<Entity>
    var dirtyVersions: map<Entity, string>
    var stream: seq<Event>
    var snapshotSequence: nat
    var cacheVersion: nat
    var leases: map<string, string>

    constructor ()
      ensures Valid() && State() == EMPTY
    {
      sets, accountIndexKeys, contractIndexKeys, marginCodes := map[], {}, {}, {};
      hashes, realtimeVersions, dirty, dirtyVersions, stream := map[], map[], {}, map[], [];
      snapshotSequence, cacheVersion, leases := 0, 0, map[];
    }

    /** Each index of keys holds keys of its own kind. */
    ghost predicate Valid()
      reads this
    {
      && (forall k :: k in accountIndexKeys ==> k.AccountPositions?)
      && (forall k :: k in contractIndexKeys ==> k.ContractPositions?)
    }

    ghost function State(): State
      reads this
    {
      PnlCycle.State(PnlIndex.Index(sets, accountIndexKeys + contractIndexKeys), marginCodes, hashes, realtimeVersions, dirty,
        dirtyVersions, stream, snapshotSequence, cacheVersion, leases)
    }

    method BuildItems(c: Cycle, items: seq<Item>) returns (operations: seq<Operation>)
      ensures operations == ItemsOperations(c, items)
    {
      operations := [];
      for i := 0 to |items|
        invariant operations == ItemsOperations(c, items[..i])
      {
        assert items[..i + 1][..i] == items[..i];
        var item := items[i];
        var added := [HsetSnapshot(item)];
        if c.markDirty {
          added := added + [SaddDirty(item.entity), HsetDirtyVersion(item.entity, c.dirtyVersion)];
        }
        added := added + [Xadd(if item.entity.Position? then PositionUpdate else AccountUpdate, item.entity)];
        if item.entity.Account? && c.emitRisk {
          added := added + [Xadd(RiskUpdate, item.entity)];
        }
        operations := operations + added;
      }
      assert items[..|items|] == items;
    }

    method BuildAdditions(entries: seq<Entry>) returns (operations: seq<Operation>)
      ensures operations == Additions(entries)
    {
      operations := [];
      for i := 0 to |entries|
        invariant operations == Additions(entries[..i])
      {
        assert entries[..i + 1][..i] == entries[..i];
        operations := operations + Addition(entries[i]);
      }
      assert entries[..|entries|] == entries;
    }

    method BuildRemovals(entries: seq<Entry>) returns (operations: seq<Operation>)
      ensures operations == Removals(entries)
    {
      operations := [];
      for i := 0 to |entries|
        invariant operations == Removals(entries[..i])
      {
        assert entries[..i + 1][..i] == entries[..i];
        operations := operations + Removal(entries[i]);
      }
      assert entries[..|entries|] == entries;
    }

    method BuildCycleOperations(c: Cycle) returns (operations: seq<Operation>)
      ensures operations == Operations(c)
    {
      var positions := BuildItems(c, c.positions);
      var accounts := BuildItems(c, c.accounts);
      var additions := BuildAdditions(c.additions);
      var removals := BuildRemovals(c.removals);
      operations := positions + accounts + additions + removals;
    }

    method SaddMember(key: Key, position: string)
      modifies this`sets
      ensures Index(sets, {}) == Sadd(Index(old(sets), {}), key, position)
    {
      sets := sets[key := (if key in sets then sets[key] else {}) + {position}];
    }

    /** The new size of the set. */
    method SremMember(key: Key, position: string) returns (size: nat)
      modifies this`sets
      ensures Index(sets, {}) == Srem(Index(old(sets), {}), key, position)
      ensures size == |Members(Index(sets, {}), key)|
    {
      var rest := (if key in sets then sets[key] else {}) - {position};
      sets := if rest == {} then sets - {key} else sets[key := rest];
      size := |rest|;
    }

    method ListKey(key: Key)
      requires Valid()
      modifies this`accountIndexKeys, this`contractIndexKeys
      ensures Valid() && accountIndexKeys + contractIndexKeys == old(accountIndexKeys) + old(contractIndexKeys) + {key}
    {
      if key.AccountPositions? {
        accountIndexKeys := accountIndexKeys + {key};
      } else {
        contractIndexKeys := contractIndexKeys + {key};
      }
    }

    method UnlistKey(key: Key)
      requires Valid()
      modifies this`accountIndexKeys, this`contractIndexKeys
      ensures Valid() && accountIndexKeys + contractIndexKeys == old(accountIndexKeys) + old(contractIndexKeys) - {key}
    {
      if key.AccountPositions? {
        accountIndexKeys := accountIndexKeys - {key};
      } else {
        contractIndexKeys := contractIndexKeys - {key};
      }
    }

    method HsetRealtimeSnapshot(item: Item, snapshotVersion: nat)
      modifies this`hashes, this`realtimeVersions
      ensures State() == Apply(old(State()), HsetSnapshot(item), snapshotVersion)
    {
      var fields := if item.entity in hashes then hashes[item.entity].fields else map[];
      hashes := hashes[item.entity := Snapshot(fields + item.fields, Some(snapshotVersion))];
      realtimeVersions := realtimeVersions[item.entity := snapshotVersion];
    }

    method ApplyIndexOperation(operation: Operation)
      requires Valid() && (operation.SaddPosition? || operation.SaddKey? || operation.SremAndPruneKey?)
      modifies this`sets, this`accountIndexKeys, this`contractIndexKeys
      ensures Valid() && State() == Apply(old(State()), operation, 0)
    {
      match operation
      case SaddPosition(key, position) => SaddMember(key, position);
      case SaddKey(key) => ListKey(key);
      case SremAndPruneKey(key, position) =>
        var size := SremMember(key, position);
        if size == 0 {
          UnlistKey(key);
        }
    }

    method ApplyOperation(operation: Operation, snapshotVersion: nat)
      requires Valid()
      modifies this
      ensures Valid() && State() == Apply(old(State()), operation, snapshotVersion)
    {
      match operation
      case HsetSnapshot(item) => HsetRealtimeSnapshot(item, snapshotVersion);
      case SaddDirty(entity) => dirty := dirty + {entity};
      case HsetDirtyVersion(entity, version) => dirtyVersions := dirtyVersions[entity := version];
      case Xadd(kind, entity) => stream := stream + [Event(kind, entity, snapshotVersion)];
      case _ => ApplyIndexOperation(operation);
    }

    method ApplyOperations(operations: seq<Operation>, snapshotVersion: nat)
      requires Valid()
      modifies this
      ensures Valid() && State() == ApplyAll(old(State()), operations, snapshotVersion)
    {
      for i := 0 to |operations|
        invariant Valid() && State() == ApplyAll(old(State()), operations[..i], snapshotVersion)
      {
        assert operations[..i + 1][..i] == operations[..i];
        ApplyOperation(operations[i], snapshotVersion);
      }
      assert operations[..|operations|] == operations;
    }

    method WriteCycleSnapshots(expectedCacheVersion: Option<nat>, c: Cycle) returns (result: Result<(nat, nat)>)
      requires Valid()
      modifies this
      ensures Valid() && State() == Next(old(State()), Write(None, expectedCacheVersion, c))
      ensures result == if Accepts(old(State()), None, expectedCacheVersion) then Ok((|c.positions|, |c.accounts|)) else StaleFacts
    {
      var operations := BuildCycleOperations(c);
      if expectedCacheVersion.Some? && cacheVersion != expectedCacheVersion.value {
        return StaleFacts;
      }
      snapshotSequence := snapshotSequence + 1;
      ApplyOperations(operations, snapshotSequence);
      return Ok((|c.positions|, |c.accounts|));
    }

    /** Also the form with the store's own worker lease. */
    method WriteCycleSnapshotsIfLeaseValueOwned(leaseKey: string, leaseValue: string, expectedCacheVersion: Option<nat>, c: Cycle)
      returns (written: bool, positionCount: nat, accountCount: nat)
      requires Valid()
      modifies this
      ensures Valid() && State() == Next(old(State()), Write(Some((leaseKey, leaseValue)), expectedCacheVersion, c))
      ensures written == Accepts(old(State()), Some((leaseKey, leaseValue)), expectedCacheVersion)
      ensures (positionCount, accountCount) == if written then (|c.positions|, |c.accounts|) else (0, 0)
    {
      var operations := BuildCycleOperations(c);
      if leaseKey !in leases || leases[leaseKey] != leaseValue {
        return false, 0, 0;
      }
      if expectedCacheVersion.Some? && cacheVersion != expectedCacheVersion.value {
        return false, 0, 0;
      }
      snapshotSequence := snapshotSequence + 1;
      ApplyOperations(operations, snapshotSequence);
      return true, |c.positions|, |c.accounts|;
    }

    method RemoveContractPosition(e: Entry)
      requires Valid()
      modifies this`sets
      ensures Valid() && State() == Next(old(State()), Remove(e))
    {
      ghost var listed := accountIndexKeys + contractIndexKeys;
      SremIgnoresListed(sets, listed, ContractKey(e), e.position);
      var _ := SremMember(ContractKey(e), e.position);
      SremIgnoresListed(sets, listed, AccountPositions(e.account), e.position);
      var _ := SremMember(AccountPositions(e.account), e.position);
    }

    /** The queued commands of one attempt, executed together. */
    method ReplaceIndexes(staleKeys: set<Key>, entries: seq<Entry>, margins: set<Text>)
      requires Valid()
      modifies this`sets, this`accountIndexKeys, this`contractIndexKeys, this`marginCodes
      ensures Valid() && marginCodes == margins
      ensures PnlIndex.Index(sets, accountIndexKeys + contractIndexKeys)
           == Rebuilt(PnlIndex.Index(old(sets), old(accountIndexKeys) + old(contractIndexKeys)), staleKeys, entries)
    {
      sets := sets - staleKeys;
      accountIndexKeys, contractIndexKeys := {}, {};
      assert accountIndexKeys + contractIndexKeys == {};
      AddAllEntries(entries);
      marginCodes := margins;
    }

    method AddAllEntries(entries: seq<Entry>)
      requires Valid()
      modifies this`sets, this`accountIndexKeys, this`contractIndexKeys
      ensures Valid() && PnlIndex.Index(sets, accountIndexKeys + contractIndexKeys)
                      == AddEntries(PnlIndex.Index(old(sets), old(accountIndexKeys) + old(contractIndexKeys)), entries)
    {
      ghost var before := PnlIndex.Index(sets, accountIndexKeys + contractIndexKeys);
      for i := 0 to |entries|
        invariant Valid()
        invariant PnlIndex.Index(sets, accountIndexKeys + contractIndexKeys) == AddEntries(before, entries[..i])
      {
        assert entries[..i + 1][..i] == entries[..i];
        AddEntryCommands(entries[i]);
      }
      assert entries[..|entries|] == entries;
    }

    method AddEntryCommands(e: Entry)
      requires Valid()
      modifies this`sets, this`accountIndexKeys, this`contractIndexKeys
      ensures Valid() && PnlIndex.Index(sets, accountIndexKeys + contractIndexKeys)
                      == AddEntry(PnlIndex.Index(old(sets), old(accountIndexKeys) + old(contractIndexKeys)), e)
    {
      SaddMember(AccountPositions(e.account), e.position);
      SaddMember(ContractKey(e), e.position);
      ListKey(AccountPositions(e.account));
      ListKey(ContractKey(e));
    }

    /** An aborted attempt is tried again, three times in all, each from reading the version on. */
    method RebuildActiveIndexes(expectedCacheVersion: nat, entries: seq<Entry>, marginDependencyCodes: seq<Text>, attempts: seq<Attempt>)
      returns (rebuilt: bool)
      requires Valid() && |attempts| == 3
      modifies this`sets, this`accountIndexKeys, this`contractIndexKeys, this`marginCodes, this`cacheVersion
      ensures Valid() && rebuilt == (old(cacheVersion) == expectedCacheVersion && Succeeds(attempts))
      ensures State() == Called(old(State()), expectedCacheVersion, entries, marginDependencyCodes, attempts)
    {
      ghost var goal := Called(State(), expectedCacheVersion, entries, marginDependencyCodes, attempts);
      ghost var success := cacheVersion == expectedCacheVersion && Succeeds(attempts);
      assert attempts[0..] == attempts;
      for attempt := 0 to ATTEMPTS
        invariant Valid()
        invariant goal == Called(State(), expectedCacheVersion, entries, marginDependencyCodes, attempts[attempt..])
        invariant success == (cacheVersion == expectedCacheVersion && Succeeds(attempts[attempt..]))
      {
        if cacheVersion != expectedCacheVersion {
          return false;
        }
        assert attempts[attempt..][1..] == attempts[attempt + 1..];
        RunAttempt(entries, marginDependencyCodes, attempts[attempt]);
        if attempts[attempt].Clean? {
          return true;
        }
      }
      return false;
    }

    /** One attempt that found the expected version. */
    method RunAttempt(entries: seq<Entry>, marginDependencyCodes: seq<Text>, attempt: Attempt)
      requires Valid()
      modifies this`sets, this`accountIndexKeys, this`contractIndexKeys, this`marginCodes, this`cacheVersion
      ensures Valid() && State() == Attempted(old(State()), entries, marginDependencyCodes, attempt)
    {
      var staleKeys := accountIndexKeys + contractIndexKeys;
      if attempt.Clean? || (attempt.Dropped? && attempt.applied) {
        ReplaceIndexes(staleKeys, entries, NormalCodes(marginDependencyCodes));
      }
      cacheVersion := cacheVersion + Raised(attempt);
    }

    /** Normalises once more what it reads, which changes nothing. */
    method ListMarginDependencyCodes() returns (codes: set<Text>)
      requires exists given :: marginCodes == NormalCodes(given)
      ensures codes == State().margins
    {
      codes := set c | c in marginCodes && Strip(c) != [] :: Normal(c);
      ghost var given :| marginCodes == NormalCodes(given);
      NormalCodesStable(given);
    }

    method ListActiveContractCodes() returns (codes: set<Text>)
      requires Valid()
      ensures codes == ActiveCodes(State().index)
    {
      codes := {};
      var pending := contractIndexKeys;
      while pending != {}
        invariant pending <= contractIndexKeys
        invariant codes == ActiveCodes(Index(sets, contractIndexKeys - pending))
        decreases |pending|
      {
        var key :| key in pending;
        ghost var done := contractIndexKeys - pending;
        if key in sets && |sets[key]| > 0 && CodeOf(key.code).Some? {
          codes := codes + {CodeOf(key.code).value};
        }
        ActiveCodesAdd(sets, done, key);
        assert contractIndexKeys - (pending - {key}) == done + {key};
        pending := pending - {key};
      }
      assert contractIndexKeys - pending == contractIndexKeys;
    }
  }

  // --- The attempts of a rebuild.

  const ATTEMPTS := 3

  /** How often the version was raised by the end of an attempt. */
  function Raised(attempt: Attempt): nat {
    match attempt
    case Clean => 0
    case Bumped(times) => times
    case Dropped(_, bumps) => bumps
  }

  /** What an attempt that read the expected version leaves behind. */
  function Attempted(s: State, entries: seq<Entry>, margins: seq<Text>, attempt: Attempt): State {
    var t := if attempt.Clean? || (attempt.Dropped? && attempt.applied) then Next(s, Rebuild(s.cacheVersion, entries, margins)) else s;
    t.(cacheVersion := s.cacheVersion + Raised(attempt))
  }

  /** What a call leaves behind. */
  function Called(s: State, expected: nat, entries: seq<Entry>, margins: seq<Text>, attempts: seq<Attempt>): State
    decreases |attempts|
  {
    if attempts == [] || s.cacheVersion != expected then s
    else
      var t := Attempted(s, entries, margins, attempts[0]);
      if attempts[0].Clean? then t else Called(t, expected, entries, margins, attempts[1..])
  }

  /** The call returns true. */
  predicate Succeeds(attempts: seq<Attempt>) {
    attempts != [] && (attempts[0].Clean? || (attempts[0] in QUIET && Succeeds(attempts[1..])))
  }

  const QUIET := {Dropped(false, 0), Dropped(true, 0)}

  /** A dropped attempt can be followed by a successful one, an attempt aborted by a raised version cannot:
      the call succeeds exactly if its first attempt that is not dropped at an unchanged version is clean. */
  lemma {:induction false} SucceedsIff(attempts: seq<Attempt>)
    ensures Succeeds(attempts)
       <==> exists i :: 0 <= i < |attempts| && attempts[i].Clean? && forall j :: 0 <= j < i ==> attempts[j] in QUIET
  {
    if attempts != [] && attempts[0] in QUIET {
      SucceedsIff(attempts[1..]);
      if i :| 0 <= i < |attempts| && attempts[i].Clean? && forall j :: 0 <= j < i ==> attempts[j] in QUIET {
        assert attempts[1..][i - 1].Clean?;
      }
      if i :| 0 <= i < |attempts[1..]| && attempts[1..][i].Clean? && forall j :: 0 <= j < i ==> attempts[1..][j] in QUIET {
        assert attempts[i + 1].Clean?;
      }
    }
  }

  /** Some attempt that was reached replaced the indexes. */
  predicate Executed(attempts: seq<Attempt>) {
    attempts != [] && (attempts[0].Clean? || (attempts[0].Dropped? &&
      (attempts[0].applied || (attempts[0].bumps == 0 && Executed(attempts[1..])))))
  }

  /** As long as every set is listed, a call from the expected version leaves the indexes and codes either as they
      were or as one undisturbed rebuild leaves them, however often they were replaced, and nothing else of the
      store changes but the version. They are replaced by every call that returns true, and also by one that
      returns false after an attempt was executed whose reply was lost. */
  lemma {:induction false} CalledIsOneRebuild(s: State, expected: nat, entries: seq<Entry>, margins: seq<Text>, attempts: seq<Attempt>)
    requires Listed(s.index) && s.cacheVersion == expected
    ensures var t := Called(s, expected, entries, margins, attempts);
      t == (if Executed(attempts) then Next(s, Rebuild(expected, entries, margins)) else s).(cacheVersion := t.cacheVersion)
    ensures var t := Called(s, expected, entries, margins, attempts);
      Listed(t.index) && s.cacheVersion <= t.cacheVersion && (Succeeds(attempts) ==> Executed(attempts) && t.cacheVersion == expected)
    decreases |attempts|
  {
    RebuiltTwice(s.index, entries);
    if attempts != [] && attempts[0] in QUIET {
      CalledIsOneRebuild(Attempted(s, entries, margins, attempts[0]), expected, entries, margins, attempts[1..]);
    }
  }

  lemma RebuiltTwice(i: Index, entries: seq<Entry>)
    requires Listed(i)
    ensures var r := Rebuilt(i, i.listed, entries); Listed(r) && Rebuilt(r, r.listed, entries) == r
  {
    var r := Rebuilt(i, i.listed, entries);
    assert i.sets - i.listed == map[];
    AddEntriesListed(Index(map[], {}), entries);
    assert r.sets - r.listed == map[];
  }

  /** For instance, two drops and a clean attempt succeed, and after three drops, one of them executed, the
      call says it failed with everything replaced. */
  lemma DroppedInstances(s: State, entries: seq<Entry>, margins: seq<Text>)
    requires Listed(s.index)
    ensures Succeeds([Dropped(false, 0), Dropped(true, 0), Clean])
    ensures var attempts := [Dropped(false, 0), Dropped(true, 0), Dropped(false, 0)];
      && !Succeeds(attempts)
      && Called(s, s.cacheVersion, entries, margins, attempts) == Next(s, Rebuild(s.cacheVersion, entries, margins))
  {
    var a, b := [Dropped(false, 0), Dropped(true, 0), Clean], [Dropped(false, 0), Dropped(true, 0), Dropped(false, 0)];
    assert a[1..] == [Dropped(true, 0), Clean] && a[1..][1..] == [Clean];
    assert b[1..] == [Dropped(true, 0), Dropped(false, 0)] && b[1..][1..] == [Dropped(false, 0)] && b[1..][1..][1..] == [];
    assert Executed(b[1..]);
    var r := Next(s, Rebuild(s.cacheVersion, entries, margins));
    assert Called(r, s.cacheVersion, entries, margins, [Dropped(false, 0)]) == r;
  }

  lemma SremIgnoresListed(sets: map<Key, set<string>>, listed: set<Key>, key: Key, position: string)
    ensures Srem(Index(sets, listed), key, position) == Index(Srem(Index(sets, {}), key, position).sets, listed)
  {}

  lemma ActiveCodesAdd(sets: map<Key, set<string>>, done: set<Key>, key: Key)
    requires key.ContractPositions?
    ensures ActiveCodes(Index(sets, done + {key}))
         == ActiveCodes(Index(sets, done))
            + if key in sets && sets[key] != {} && CodeOf(key.code).Some? then {CodeOf(key.code).value} else {}
  {}
}

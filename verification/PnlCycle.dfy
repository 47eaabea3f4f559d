/** The fenced cycle writes of the realtime PnL store: one script checks lease and cache version, takes
    the next snapshot version and applies the operations. */
module PnlCycle {
  import opened Options
  import opened PercentCodec
  import opened PnlIndex
  import Q = CallerVersions

  /** What a snapshot hash describes. */
  datatype Entity = Position(id: string) | Account(id: string)

  /** The hash fields and, apart from them, the version field added by the script. */
  datatype Snapshot = Snapshot(fields: map<string, string>, version: Option<nat>)

  datatype Kind = PositionUpdate | AccountUpdate | RiskUpdate
  datatype Event = Event(kind: Kind, entity: Entity, version: nat)

  datatype Item = Item(entity: Entity, fields: map<string, string>)

  /** The input of one cycle; the items of `positions` describe positions, those of `accounts` accounts. */
  datatype Cycle = Cycle(
    positions: seq<Item>,
    accounts: seq<Item>,
    dirtyVersion: string,
    additions: seq<Entry>,
    removals: seq<Entry>,
    markDirty: bool,
    emitRisk: bool)

  datatype Operation =
    | HsetSnapshot(item: Item)
    | SaddDirty(entity: Entity)
    | HsetDirtyVersion(entity: Entity, version: string)
    | Xadd(kind: Kind, entity: Entity)
    | SaddPosition(key: Key, position: string)
    | SaddKey(key: Key)
    | SremAndPruneKey(key: Key, position: string)

  /** `margins` holds the codes that active short options depend on. */
  datatype State = State(
    index: Index,
    margins: set<Text>,
    hashes: map<Entity, Snapshot>,
    versions: map<Entity, nat>,
    dirty: set<Entity>,
    dirtyVersions: map<Entity, string>,
    events: seq<Event>,
    sequence: nat,
    cacheVersion: nat,
    leases: map<string, string>)

  const EMPTY := State(Index(map[], {}), {}, map[], map[], {}, map[], [], 0, 0, map[])

  // --- Building the operations.

  function ItemOperations(c: Cycle, item: Item): seq<Operation> {
    [HsetSnapshot(item)]
    + (if c.markDirty then [SaddDirty(item.entity), HsetDirtyVersion(item.entity, c.dirtyVersion)] else [])
    + [Xadd(if item.entity.Position? then PositionUpdate else AccountUpdate, item.entity)]
    + (if item.entity.Account? && c.emitRisk then [Xadd(RiskUpdate, item.entity)] else [])
  }

  function ItemsOperations(c: Cycle, items: seq<Item>): seq<Operation> {
    if items == [] then [] else ItemsOperations(c, items[..|items| - 1]) + ItemOperations(c, items[|items| - 1])
  }

  function Addition(e: Entry): seq<Operation> {
    var a, k := AccountPositions(e.account), ContractKey(e);
    [SaddPosition(a, e.position), SaddPosition(k, e.position), SaddKey(a), SaddKey(k)]
  }

  function Removal(e: Entry): seq<Operation> {
    [SremAndPruneKey(AccountPositions(e.account), e.position), SremAndPruneKey(ContractKey(e), e.position)]
  }

  function Additions(entries: seq<Entry>): seq<Operation> {
    if entries == [] then [] else Additions(entries[..|entries| - 1]) + Addition(entries[|entries| - 1])
  }

  function Removals(entries: seq<Entry>): seq<Operation> {
    if entries == [] then [] else Removals(entries[..|entries| - 1]) + Removal(entries[|entries| - 1])
  }

  function Operations(c: Cycle): seq<Operation> {
    ItemsOperations(c, c.positions) + ItemsOperations(c, c.accounts) + Additions(c.additions) + Removals(c.removals)
  }

  // --- Applying them.

  function Apply(s: State, op: Operation, snapshot: nat): State {
    match op
    case HsetSnapshot(item) =>
      var fields := if item.entity in s.hashes then s.hashes[item.entity].fields else map[];
      s.(hashes := s.hashes[item.entity := Snapshot(fields + item.fields, Some(snapshot))],
         versions := s.versions[item.entity := snapshot])
    case SaddDirty(entity) => s.(dirty := s.dirty + {entity})
    case HsetDirtyVersion(entity, version) => s.(dirtyVersions := s.dirtyVersions[entity := version])
    case Xadd(kind, entity) => s.(events := s.events + [Event(kind, entity, snapshot)])
    case SaddPosition(key, position) => s.(index := Sadd(s.index, key, position))
    case SaddKey(key) => s.(index := List(s.index, key))
    case SremAndPruneKey(key, position) => s.(index := SremAndPrune(s.index, key, position))
  }

  function ApplyAll(s: State, ops: seq<Operation>, snapshot: nat): State {
    if ops == [] then s else Apply(ApplyAll(s, ops[..|ops| - 1], snapshot), ops[|ops| - 1], snapshot)
  }

  function Written(s: State, c: Cycle): State {
    ApplyAll(s.(sequence := s.sequence + 1), Operations(c), s.sequence + 1)
  }

  /** The guard of the script; `lease` is absent for the unfenced form. An expected version left empty is
      not compared. */
  predicate Accepts(s: State, lease: Option<(string, string)>, expected: Option<nat>) {
    && (lease.Some? ==> lease.value.0 in s.leases && s.leases[lease.value.0] == lease.value.1)
    && (expected.Some? ==> s.cacheVersion == expected.value)
  }

  /** `DeleteHashes` is the first pipeline of the daily settlement, as far as the snapshot hashes go. */
  datatype Step =
    | DeleteHashes(entities: set<Entity>)
    | AcquireLease(key: string, owner: string)
    | LoseLease(key: string)
    | Bump
    | Write(lease: Option<(string, string)>, expected: Option<nat>, cycle: Cycle)
    | Remove(entry: Entry)
    | Rebuild(expectedVersion: nat, entries: seq<Entry>, margins: seq<Text>)

  predicate Accepted(s: State, step: Step) {
    step.Write? && Accepts(s, step.lease, step.expected)
  }

  function Next(s: State, step: Step): State {
    match step
    case DeleteHashes(entities) => s.(hashes := s.hashes - entities)
    case AcquireLease(key, owner) => if key in s.leases then s else s.(leases := s.leases[key := owner])
    case LoseLease(key) => s.(leases := s.leases - {key})
    case Bump => s.(cacheVersion := s.cacheVersion + 1)
    case Write(lease, expected, cycle) => if Accepts(s, lease, expected) then Written(s, cycle) else s
    case Remove(entry) => s.(index := RemovePosition(s.index, entry))
    case Rebuild(expected, entries, margins) =>
      if s.cacheVersion == expected then
        s.(index := Rebuilt(s.index, s.index.listed, entries), margins := NormalCodes(margins))
      else s
  }

  function Run(steps: seq<Step>): State {
    if steps == [] then EMPTY else Next(Run(steps[..|steps| - 1]), steps[|steps| - 1])
  }

  /** The cycles accepted in a run, in order. */
  function Cycles(steps: seq<Step>): seq<Cycle> {
    if steps == [] then [] else
      var front, last := Cycles(steps[..|steps| - 1]), steps[|steps| - 1];
      if Accepted(Run(steps[..|steps| - 1]), last) then front + [last.cycle] else front
  }

  // --- Applying a list of operations.

  lemma {:induction false} ApplyConcat(s: State, a: seq<Operation>, b: seq<Operation>, v: nat)
    ensures ApplyAll(s, a + b, v) == ApplyAll(ApplyAll(s, a, v), b, v)
  {
    if b == [] {
      assert a + b == a;
    } else {
      ApplyConcat(s, a, b[..|b| - 1], v);
      assert (a + b)[..|a + b| - 1] == a + b[..|b| - 1];
    }
  }

  /** Only cycle scripts and index steps of the script change these. */
  lemma {:induction false} ApplyFrame(s: State, ops: seq<Operation>, v: nat)
    ensures var t := ApplyAll(s, ops, v);
      t.sequence == s.sequence && t.cacheVersion == s.cacheVersion && t.leases == s.leases && s.events <= t.events
  {
    if ops != [] {
      var front := ApplyAll(s, ops[..|ops| - 1], v);
      ApplyFrame(s, ops[..|ops| - 1], v);
      ApplyOneFrame(front, ops[|ops| - 1], v);
    }
  }

  lemma ApplyOneFrame(s: State, op: Operation, v: nat)
    ensures var t := Apply(s, op, v);
      t.sequence == s.sequence && t.cacheVersion == s.cacheVersion && t.leases == s.leases && s.events <= t.events
  {}

  /** A write takes effect exactly when the lease key holds the caller's value, if it names one, and the
      expected version, if it names one, is the current one; a refused one changes nothing at all. */
  lemma WriteChangesIff(s: State, step: Step)
    requires step.Write?
    ensures var effect :=
        && (step.lease.None? || (step.lease.value.0 in s.leases && s.leases[step.lease.value.0] == step.lease.value.1))
        && (step.expected.None? || step.expected.value == s.cacheVersion);
      && (Next(s, step) != s <==> effect)
      && (Accepted(s, step) <==> effect)
      && Next(s, step).sequence == s.sequence + if effect then 1 else 0
  {
    ApplyFrame(s.(sequence := s.sequence + 1), Operations(step.cycle), s.sequence + 1);
  }

  /** The steps beside the cycles. */
  lemma OtherSteps(s: State, entities: set<Entity>, e: Entity)
    ensures Next(s, Bump) == s.(cacheVersion := s.cacheVersion + 1)
    ensures var t := Next(s, DeleteHashes(entities));
      && t == s.(hashes := t.hashes) && (e in t.hashes <==> e in s.hashes && e !in entities)
      && (e in t.hashes ==> t.hashes[e] == s.hashes[e])
  {}

  /** Only acquiring and losing it changes who holds a lease, and only a free one is acquired. */
  lemma HolderAfter(s: State, step: Step, key: string)
    ensures var t := Next(s, step);
      && (step == LoseLease(key) ==> key !in t.leases)
      && (step.AcquireLease? && step.key == key && key !in s.leases ==> key in t.leases && t.leases[key] == step.owner)
      && (step != LoseLease(key) && key in s.leases ==> key in t.leases && t.leases[key] == s.leases[key])
  {
    if step.Write? {
      ApplyFrame(s.(sequence := s.sequence + 1), Operations(step.cycle), s.sequence + 1);
    }
  }

  lemma {:induction false} HeldSince(steps: seq<Step>, i: nat, j: nat, key: string)
    requires i < j <= |steps| && steps[i].AcquireLease? && steps[i].key == key && key !in Run(steps[..i]).leases
    requires forall k :: i < k < j ==> steps[k] != LoseLease(key)
    ensures key in Run(steps[..j]).leases && Run(steps[..j]).leases[key] == steps[i].owner
  {
    assert steps[..j][..j - 1] == steps[..j - 1];
    HolderAfter(Run(steps[..j - 1]), steps[j - 1], key);
    if i < j - 1 {
      HeldSince(steps, i, j - 1, key);
    }
  }

  /** Once another has taken over a lost lease, and until it loses it in turn, no write fenced with the former
      holder's value changes anything. */
  lemma TakeoverFences(steps: seq<Step>, i: nat, j: nat, key: string, former: string)
    requires i < j < |steps| && steps[i].AcquireLease? && steps[i].key == key && key !in Run(steps[..i]).leases
    requires forall k :: i < k < j ==> steps[k] != LoseLease(key)
    requires steps[j].Write? && steps[j].lease == Some((key, former)) && former != steps[i].owner
    ensures Run(steps[..j + 1]) == Run(steps[..j])
  {
    HeldSince(steps, i, j, key);
    assert steps[..j + 1][..j] == steps[..j];
    WriteChangesIff(Run(steps[..j]), steps[j]);
  }

  /** While it holds the lease the new holder's writes do take effect, if the version is right. */
  lemma HolderWrites(steps: seq<Step>, i: nat, j: nat, key: string)
    requires i < j < |steps| && steps[i].AcquireLease? && steps[i].key == key && key !in Run(steps[..i]).leases
    requires forall k :: i < k < j ==> steps[k] != LoseLease(key)
    requires steps[j].Write? && steps[j].lease == Some((key, steps[i].owner))
    requires steps[j].expected == None || steps[j].expected == Some(Run(steps[..j]).cacheVersion)
    ensures Run(steps[..j + 1]).sequence == Run(steps[..j]).sequence + 1
  {
    HeldSince(steps, i, j, key);
    assert steps[..j + 1][..j] == steps[..j];
    WriteChangesIff(Run(steps[..j]), steps[j]);
  }

  // --- Snapshot versions.

  function Items(c: Cycle): set<Item> {
    (set item | item in c.positions) + (set item | item in c.accounts)
  }

  function EntitiesOf(items: set<Item>): set<Entity> {
    set item | item in items :: item.entity
  }

  function Entities(c: Cycle): set<Entity> {
    EntitiesOf(Items(c))
  }

  /** The items a list of operations writes. */
  function WrittenItems(ops: seq<Operation>): set<Item> {
    set op | op in ops && op.HsetSnapshot? :: op.item
  }

  function Touched(ops: seq<Operation>): set<Entity> {
    EntitiesOf(WrittenItems(ops))
  }

  lemma WrittenConcat(a: seq<Operation>, b: seq<Operation>)
    ensures WrittenItems(a + b) == WrittenItems(a) + WrittenItems(b)
  {}

  lemma {:induction false} ItemsWritten(c: Cycle, items: seq<Item>)
    ensures WrittenItems(ItemsOperations(c, items)) == (set item | item in items)
  {
    if items != [] {
      var front, item := items[..|items| - 1], items[|items| - 1];
      assert items == front + [item];
      ItemsWritten(c, front);
      WrittenConcat(ItemsOperations(c, front), ItemOperations(c, item));
      ItemWritten(c, item);
    }
  }

  lemma ItemWritten(c: Cycle, item: Item)
    ensures WrittenItems(ItemOperations(c, item)) == {item}
  {
    assert HsetSnapshot(item) in ItemOperations(c, item);
  }

  lemma {:induction false} IndexOpsWriteNothing(entries: seq<Entry>)
    ensures WrittenItems(Additions(entries)) == {} && WrittenItems(Removals(entries)) == {}
  {
    if entries != [] {
      var front, e := entries[..|entries| - 1], entries[|entries| - 1];
      IndexOpsWriteNothing(front);
      WrittenConcat(Additions(front), Addition(e));
      WrittenConcat(Removals(front), Removal(e));
    }
  }

  lemma CycleWrites(c: Cycle)
    ensures WrittenItems(Operations(c)) == Items(c) && Touched(Operations(c)) == Entities(c)
  {
    var p, a := ItemsOperations(c, c.positions), ItemsOperations(c, c.accounts);
    ItemsWritten(c, c.positions);
    ItemsWritten(c, c.accounts);
    IndexOpsWriteNothing(c.additions);
    IndexOpsWriteNothing(c.removals);
    WrittenConcat(p, a);
    WrittenConcat(p + a, Additions(c.additions));
    WrittenConcat(p + a + Additions(c.additions), Removals(c.removals));
  }

  /** A list of operations gives its version to the entities it touches and to no other. */
  lemma {:induction false} ApplyVersions(s: State, ops: seq<Operation>, v: nat)
    ensures var t := ApplyAll(s, ops, v);
      && t.versions.Keys == s.versions.Keys + Touched(ops)
      && (forall e :: e in Touched(ops) ==> t.versions[e] == v)
      && (forall e :: e in s.versions && e !in Touched(ops) ==> t.versions[e] == s.versions[e])
  {
    if ops != [] {
      var front, op := ops[..|ops| - 1], ops[|ops| - 1];
      assert ops == front + [op];
      ApplyVersions(s, front, v);
      TouchedAppend(front, op);
      ApplyOneVersions(ApplyAll(s, front, v), op, v);
    } else {
      assert Touched(ops) == {};
    }
  }

  lemma TouchedAppend(ops: seq<Operation>, op: Operation)
    ensures Touched(ops + [op]) == Touched(ops) + if op.HsetSnapshot? then {op.item.entity} else {}
  {
    WrittenConcat(ops, [op]);
    assert WrittenItems([op]) == if op.HsetSnapshot? then {op.item} else {};
  }

  lemma ApplyOneVersions(s: State, op: Operation, v: nat)
    ensures Apply(s, op, v).versions == if op.HsetSnapshot? then s.versions[op.item.entity := v] else s.versions
  {}

  /** The version field of a hash is the entry of the version index. */
  ghost predicate FieldsMatch(s: State) {
    forall e :: e in s.hashes ==> e in s.versions && s.hashes[e].version == Some(s.versions[e])
  }

  lemma {:induction false} ApplyKeepsFields(s: State, ops: seq<Operation>, v: nat)
    requires FieldsMatch(s)
    ensures FieldsMatch(ApplyAll(s, ops, v))
  {
    if ops != [] {
      ApplyKeepsFields(s, ops[..|ops| - 1], v);
      ApplyOneKeepsFields(ApplyAll(s, ops[..|ops| - 1], v), ops[|ops| - 1], v);
    }
  }

  lemma ApplyOneKeepsFields(s: State, op: Operation, v: nat)
    requires FieldsMatch(s)
    ensures FieldsMatch(Apply(s, op, v))
  {
    assert op.HsetSnapshot? || (Apply(s, op, v).hashes == s.hashes && Apply(s, op, v).versions == s.versions);
  }

  /** The hash of the item's entity holds all the fields of the item. */
  predicate Shows(s: State, item: Item) {
    item.entity in s.hashes
    && forall f :: f in item.fields ==> f in s.hashes[item.entity].fields && s.hashes[item.entity].fields[f] == item.fields[f]
  }

  lemma {:induction false} ApplyShows(s: State, ops: seq<Operation>, v: nat, item: Item)
    requires item in WrittenItems(ops)
    requires forall other :: other in WrittenItems(ops) && other.entity == item.entity ==> other == item
    ensures Shows(ApplyAll(s, ops, v), item)
  {
    var front, op := ops[..|ops| - 1], ops[|ops| - 1];
    assert ops == front + [op];
    WrittenConcat(front, [op]);
    if op != HsetSnapshot(item) {
      assert item in WrittenItems(front);
      ApplyShows(s, front, v, item);
      assert op.HsetSnapshot? ==> op.item in WrittenItems([op]);
    }
  }

  lemma WrittenFields(s: State, c: Cycle, item: Item)
    requires item in Items(c) && forall other :: other in Items(c) && other.entity == item.entity ==> other == item
    ensures Shows(Written(s, c), item)
  {
    CycleWrites(c);
    ApplyShows(s.(sequence := s.sequence + 1), Operations(c), s.sequence + 1, item);
  }

  /** An accepted cycle that describes each entity once leaves every hash showing the cycle's values under
      the cycle's version. */
  lemma WrittenShows(s: State, c: Cycle, item: Item)
    requires item in Items(c) && forall other :: other in Items(c) && other.entity == item.entity ==> other == item
    requires FieldsMatch(s)
    ensures var t := Written(s, c);
      && item.entity in t.hashes && t.hashes[item.entity].version == Some(s.sequence + 1)
      && forall f :: f in item.fields ==> f in t.hashes[item.entity].fields && t.hashes[item.entity].fields[f] == item.fields[f]
  {
    WrittenFields(s, c, item);
    WrittenVersions(s, c);
    assert item.entity in Entities(c);
  }

  /** Cycle `n` is the last accepted one that wrote entity `e`. */
  ghost predicate LastWriter(cycles: seq<Cycle>, e: Entity, n: nat) {
    && 1 <= n <= |cycles| && e in Entities(cycles[n - 1])
    && forall m :: n <= m < |cycles| ==> e !in Entities(cycles[m])
  }

  /** After any run by any number of workers, the snapshot sequence counts the accepted cycles, and the
      version kept for an entity, in its hash as in the index, is the number of the last cycle that wrote it. */
  lemma {:induction false} VersionIsLastWriter(steps: seq<Step>)
    ensures var s, cycles := Run(steps), Cycles(steps);
      && s.sequence == |cycles| && FieldsMatch(s)
      && (forall e, n: nat :: e in s.versions && s.versions[e] == n <==> LastWriter(cycles, e, n))
  {
    if steps != [] {
      var front, last := steps[..|steps| - 1], steps[|steps| - 1];
      VersionIsLastWriter(front);
      var s, cycles := Run(front), Cycles(front);
      if Accepted(s, last) {
        WrittenVersions(s, last.cycle);
        forall e, n: nat
          ensures LastWriter(cycles + [last.cycle], e, n)
             <==> if e in Entities(last.cycle) then n == |cycles| + 1 else LastWriter(cycles, e, n)
        {
          LastWriterAppend(cycles, last.cycle, e, n);
        }
      } else {
        OtherStepsKeepVersions(s, last);
      }
    }
  }

  lemma OtherStepsKeepVersions(s: State, step: Step)
    requires !Accepted(s, step)
    ensures var t := Next(s, step);
      t.versions == s.versions && t.sequence == s.sequence && (FieldsMatch(s) ==> FieldsMatch(t))
  {}

  lemma WrittenVersions(s: State, c: Cycle)
    requires FieldsMatch(s)
    ensures var t := Written(s, c);
      && t.sequence == s.sequence + 1 && FieldsMatch(t)
      && t.versions.Keys == s.versions.Keys + Entities(c)
      && (forall e :: e in Entities(c) ==> t.versions[e] == s.sequence + 1)
      && (forall e :: e in s.versions && e !in Entities(c) ==> t.versions[e] == s.versions[e])
  {
    WrittenMatch(s, c);
    ApplyVersions(s.(sequence := s.sequence + 1), Operations(c), s.sequence + 1);
    CycleWrites(c);
  }

  lemma WrittenMatch(s: State, c: Cycle)
    requires FieldsMatch(s)
    ensures Written(s, c).sequence == s.sequence + 1 && FieldsMatch(Written(s, c))
  {
    var begun := s.(sequence := s.sequence + 1);
    assert FieldsMatch(begun);
    ApplyFrame(begun, Operations(c), s.sequence + 1);
    ApplyKeepsFields(begun, Operations(c), s.sequence + 1);
  }

  lemma LastWriterAppend(cycles: seq<Cycle>, c: Cycle, e: Entity, n: nat)
    ensures LastWriter(cycles + [c], e, n)
       <==> if e in Entities(c) then n == |cycles| + 1 else LastWriter(cycles, e, n)
  {
    var all := cycles + [c];
    assert all[|cycles|] == c;
    assert forall m :: 0 <= m < |cycles| ==> all[m] == cycles[m];
  }

  /** Every event of the stream carries the number of the cycle that wrote it, and they come in order. */
  ghost predicate EventsOrdered(s: State) {
    && (forall i, j :: 0 <= i < j < |s.events| ==> s.events[i].version <= s.events[j].version)
    && (forall i :: 0 <= i < |s.events| ==> 1 <= s.events[i].version <= s.sequence)
  }

  lemma {:induction false} ApplyKeepsEvents(s: State, ops: seq<Operation>)
    requires EventsOrdered(s) && s.sequence > 0
    ensures EventsOrdered(ApplyAll(s, ops, s.sequence))
  {
    if ops != [] {
      ApplyKeepsEvents(s, ops[..|ops| - 1]);
      ApplyFrame(s, ops[..|ops| - 1], s.sequence);
      ApplyOneKeepsEvents(ApplyAll(s, ops[..|ops| - 1], s.sequence), ops[|ops| - 1]);
    }
  }

  lemma ApplyOneKeepsEvents(s: State, op: Operation)
    requires EventsOrdered(s) && s.sequence > 0
    ensures EventsOrdered(Apply(s, op, s.sequence))
  {
    assert op.Xadd? || Apply(s, op, s.sequence).events == s.events;
  }

  lemma StepKeepsEvents(s: State, step: Step)
    requires EventsOrdered(s)
    ensures EventsOrdered(Next(s, step))
  {
    if Accepted(s, step) {
      var begun := s.(sequence := s.sequence + 1);
      assert EventsOrdered(begun);
      ApplyKeepsEvents(begun, Operations(step.cycle));
      ApplyFrame(begun, Operations(step.cycle), begun.sequence);
    } else {
      assert Next(s, step).events == s.events && Next(s, step).sequence == s.sequence;
    }
  }

  lemma {:induction false} RunKeepsEvents(steps: seq<Step>)
    ensures EventsOrdered(Run(steps))
  {
    if steps != [] {
      RunKeepsEvents(steps[..|steps| - 1]);
      StepKeepsEvents(Run(steps[..|steps| - 1]), steps[|steps| - 1]);
    }
  }

  /** The events one item gives: its update, and for an account its risk state where that is asked for. */
  function ItemEvents(c: Cycle, item: Item, v: nat): seq<Event> {
    if item.entity.Position? then [Event(PositionUpdate, item.entity, v)]
    else [Event(AccountUpdate, item.entity, v)] + if c.emitRisk then [Event(RiskUpdate, item.entity, v)] else []
  }

  function ItemsEvents(c: Cycle, items: seq<Item>, v: nat): seq<Event> {
    if items == [] then [] else ItemsEvents(c, items[..|items| - 1], v) + ItemEvents(c, items[|items| - 1], v)
  }

  function Announced(ops: seq<Operation>, v: nat): seq<Event> {
    if ops == [] then [] else
      var front, op := Announced(ops[..|ops| - 1], v), ops[|ops| - 1];
      if op.Xadd? then front + [Event(op.kind, op.entity, v)] else front
  }

  lemma {:induction false} ApplyAnnounces(s: State, ops: seq<Operation>, v: nat)
    ensures ApplyAll(s, ops, v).events == s.events + Announced(ops, v)
  {
    if ops != [] {
      ApplyAnnounces(s, ops[..|ops| - 1], v);
      ApplyOneAnnounces(ApplyAll(s, ops[..|ops| - 1], v), ops[|ops| - 1], v);
    }
  }

  lemma ApplyOneAnnounces(s: State, op: Operation, v: nat)
    ensures Apply(s, op, v).events == s.events + if op.Xadd? then [Event(op.kind, op.entity, v)] else []
  {}

  lemma {:induction false} AnnouncedConcat(a: seq<Operation>, b: seq<Operation>, v: nat)
    ensures Announced(a + b, v) == Announced(a, v) + Announced(b, v)
  {
    if b == [] {
      assert a + b == a;
    } else {
      AnnouncedConcat(a, b[..|b| - 1], v);
      assert (a + b)[..|a + b| - 1] == a + b[..|b| - 1];
    }
  }

  lemma AnnouncedOne(op: Operation, v: nat)
    ensures Announced([op], v) == if op.Xadd? then [Event(op.kind, op.entity, v)] else []
  {
    assert [op][..0] == [];
  }

  lemma ItemAnnounced(c: Cycle, item: Item, v: nat)
    ensures Announced(ItemOperations(c, item), v) == ItemEvents(c, item, v)
  {
    var hset := [HsetSnapshot(item)];
    var marks := if c.markDirty then [SaddDirty(item.entity), HsetDirtyVersion(item.entity, c.dirtyVersion)] else [];
    var update := [Xadd(if item.entity.Position? then PositionUpdate else AccountUpdate, item.entity)];
    var risk := if item.entity.Account? && c.emitRisk then [Xadd(RiskUpdate, item.entity)] else [];
    AnnouncedConcat(hset, marks, v);
    AnnouncedConcat(hset + marks, update, v);
    AnnouncedConcat(hset + marks + update, risk, v);
    AnnouncedOne(hset[0], v);
    AnnouncedOne(update[0], v);
    AnnouncedOne(Xadd(RiskUpdate, item.entity), v);
    AnnouncedNothing(marks, v);
  }

  lemma {:induction false} AnnouncedNothing(ops: seq<Operation>, v: nat)
    requires forall op :: op in ops ==> !op.Xadd?
    ensures Announced(ops, v) == []
  {
    if ops != [] {
      AnnouncedNothing(ops[..|ops| - 1], v);
      assert ops[|ops| - 1] in ops;
    }
  }

  lemma {:induction false} ItemsAnnounced(c: Cycle, items: seq<Item>, v: nat)
    ensures Announced(ItemsOperations(c, items), v) == ItemsEvents(c, items, v)
  {
    if items != [] {
      var front, item := items[..|items| - 1], items[|items| - 1];
      ItemsAnnounced(c, front, v);
      AnnouncedConcat(ItemsOperations(c, front), ItemOperations(c, item), v);
      ItemAnnounced(c, item, v);
    }
  }

  lemma {:induction false} IndexOpsAnnounceNothing(entries: seq<Entry>, v: nat)
    ensures Announced(Additions(entries), v) == [] && Announced(Removals(entries), v) == []
  {
    if entries != [] {
      var front, e := entries[..|entries| - 1], entries[|entries| - 1];
      IndexOpsAnnounceNothing(front, v);
      AnnouncedConcat(Additions(front), Addition(e), v);
      AnnouncedConcat(Removals(front), Removal(e), v);
      AnnouncedNothing(Addition(e), v);
      AnnouncedNothing(Removal(e), v);
    }
  }

  lemma CycleAnnounced(c: Cycle, v: nat)
    ensures Announced(Operations(c), v) == ItemsEvents(c, c.positions, v) + ItemsEvents(c, c.accounts, v)
  {
    var p, a := ItemsOperations(c, c.positions), ItemsOperations(c, c.accounts);
    ItemsAnnounced(c, c.positions, v);
    ItemsAnnounced(c, c.accounts, v);
    IndexOpsAnnounceNothing(c.additions, v);
    IndexOpsAnnounceNothing(c.removals, v);
    AnnouncedConcat(p, a, v);
    AnnouncedConcat(p + a, Additions(c.additions), v);
    AnnouncedConcat(p + a + Additions(c.additions), Removals(c.removals), v);
  }

  /** An accepted cycle appends exactly the events of its positions and then of its accounts, all under the
      version of the cycle. */
  lemma WrittenEvents(s: State, c: Cycle)
    ensures Written(s, c).events
         == s.events + (ItemsEvents(c, c.positions, s.sequence + 1) + ItemsEvents(c, c.accounts, s.sequence + 1))
  {
    CycleAnnounced(c, s.sequence + 1);
    ApplyAnnounces(s.(sequence := s.sequence + 1), Operations(c), s.sequence + 1);
  }

  // --- Dirty marks.

  /** The marks a list of operations makes: of a set, and of a version beside it. */
  function Marked(ops: seq<Operation>): set<Entity> {
    set op | op in ops && op.SaddDirty? :: op.entity
  }

  function Versioned(ops: seq<Operation>): set<Entity> {
    set op | op in ops && op.HsetDirtyVersion? :: op.entity
  }

  lemma MarkedConcat(a: seq<Operation>, b: seq<Operation>)
    ensures Marked(a + b) == Marked(a) + Marked(b)
    ensures Versioned(a + b) == Versioned(a) + Versioned(b)
  {}

  /** Every mark of the operations carries one version. */
  ghost predicate OneVersion(ops: seq<Operation>, version: string) {
    forall op :: op in ops && op.HsetDirtyVersion? ==> op.version == version
  }

  function Stamp(entities: set<Entity>, version: string): map<Entity, string> {
    map e | e in entities :: version
  }

  lemma {:induction false} ApplyMarks(s: State, ops: seq<Operation>, v: nat, version: string)
    requires OneVersion(ops, version)
    ensures ApplyAll(s, ops, v).dirty == s.dirty + Marked(ops)
    ensures ApplyAll(s, ops, v).dirtyVersions == s.dirtyVersions + Stamp(Versioned(ops), version)
  {
    if ops != [] {
      var front, op := ops[..|ops| - 1], ops[|ops| - 1];
      assert ops == front + [op];
      ApplyMarks(s, front, v, version);
      MarkedConcat(front, [op]);
      ApplyOneMark(ApplyAll(s, front, v), op, v, version);
      StampUnion(s.dirtyVersions, Versioned(front), Versioned([op]), version);
    }
  }

  lemma ApplyOneMark(s: State, op: Operation, v: nat, version: string)
    requires op.HsetDirtyVersion? ==> op.version == version
    ensures Apply(s, op, v).dirty == s.dirty + Marked([op])
    ensures Apply(s, op, v).dirtyVersions == s.dirtyVersions + Stamp(Versioned([op]), version)
  {
    assert Marked([op]) == if op.SaddDirty? then {op.entity} else {};
    assert Versioned([op]) == if op.HsetDirtyVersion? then {op.entity} else {};
  }

  lemma StampUnion(m: map<Entity, string>, a: set<Entity>, b: set<Entity>, version: string)
    ensures m + Stamp(a, version) + Stamp(b, version) == m + Stamp(a + b, version)
  {}

  /** What a cycle marks dirty. */
  function Marks(c: Cycle): set<Entity> {
    if c.markDirty then Entities(c) else {}
  }

  lemma {:induction false} ItemsMarked(c: Cycle, items: seq<Item>)
    ensures var ops := ItemsOperations(c, items); var marked := if c.markDirty then set item | item in items :: item.entity else {};
      Marked(ops) == marked && Versioned(ops) == marked && OneVersion(ops, c.dirtyVersion)
  {
    if items != [] {
      var front, item := items[..|items| - 1], items[|items| - 1];
      assert items == front + [item];
      ItemsMarked(c, front);
      MarkedConcat(ItemsOperations(c, front), ItemOperations(c, item));
      ItemMarked(c, item);
    }
  }

  lemma ItemMarked(c: Cycle, item: Item)
    ensures var ops := ItemOperations(c, item); var marked := if c.markDirty then {item.entity} else {};
      Marked(ops) == marked && Versioned(ops) == marked && OneVersion(ops, c.dirtyVersion)
  {
    if c.markDirty {
      assert SaddDirty(item.entity) in ItemOperations(c, item);
      assert HsetDirtyVersion(item.entity, c.dirtyVersion) in ItemOperations(c, item);
    }
  }

  lemma {:induction false} IndexOpsMarkNothing(entries: seq<Entry>)
    ensures Marked(Additions(entries)) == {} && Versioned(Additions(entries)) == {}
    ensures Marked(Removals(entries)) == {} && Versioned(Removals(entries)) == {}
  {
    if entries != [] {
      var front, e := entries[..|entries| - 1], entries[|entries| - 1];
      IndexOpsMarkNothing(front);
      MarkedConcat(Additions(front), Addition(e));
      MarkedConcat(Removals(front), Removal(e));
    }
  }

  lemma CycleMarked(c: Cycle)
    ensures Marked(Operations(c)) == Marks(c) && Versioned(Operations(c)) == Marks(c)
  {
    var p, a := ItemsOperations(c, c.positions), ItemsOperations(c, c.accounts);
    ItemsMarked(c, c.positions);
    ItemsMarked(c, c.accounts);
    IndexOpsMarkNothing(c.additions);
    IndexOpsMarkNothing(c.removals);
    MarkedConcat(p, a);
    MarkedConcat(p + a, Additions(c.additions));
    MarkedConcat(p + a + Additions(c.additions), Removals(c.removals));
    CycleMarks(c);
  }

  lemma {:induction false} IndexOpsOneVersion(entries: seq<Entry>, version: string)
    ensures OneVersion(Additions(entries), version) && OneVersion(Removals(entries), version)
  {
    if entries != [] {
      IndexOpsOneVersion(entries[..|entries| - 1], version);
    }
  }

  lemma CycleOneVersion(c: Cycle)
    ensures OneVersion(Operations(c), c.dirtyVersion)
  {
    ItemsMarked(c, c.positions);
    ItemsMarked(c, c.accounts);
    IndexOpsOneVersion(c.additions, c.dirtyVersion);
    IndexOpsOneVersion(c.removals, c.dirtyVersion);
  }

  /** An accepted cycle marks exactly the entities it wrote, with its dirty version, or nothing where it is
      told not to; the set and the versions are marked together. */
  lemma WrittenMarks(s: State, c: Cycle)
    ensures Written(s, c).dirty == s.dirty + Marks(c)
    ensures Written(s, c).dirtyVersions == s.dirtyVersions + Stamp(Marks(c), c.dirtyVersion)
  {
    CycleMarked(c);
    CycleOneVersion(c);
    ApplyMarks(s.(sequence := s.sequence + 1), Operations(c), s.sequence + 1, c.dirtyVersion);
  }

  /** The dirty queue of a state. */
  function DirtyQueue(s: State): Q.Queue<Entity> {
    Q.Queue(s.dirty, s.dirtyVersions)
  }

  /** So a cycle is one mark of the caller-versioned queue, and loses none while its versions are fresh. */
  lemma WrittenIsMark(s: State, c: Cycle)
    ensures DirtyQueue(Written(s, c)) == Q.Next(DirtyQueue(s), Q.Mark(Marks(c), c.dirtyVersion))
  {
    WrittenMarks(s, c);
  }

  lemma CycleMarks(c: Cycle)
    ensures Marks(c) == if c.markDirty
      then (set item | item in c.positions :: item.entity) + (set item | item in c.accounts :: item.entity) else {}
  {
    assert forall item :: item in c.positions ==> item in Items(c);
    assert forall item :: item in c.accounts ==> item in Items(c);
  }

  // --- The index.

  lemma {:induction false} ItemsKeepIndex(s: State, c: Cycle, items: seq<Item>, v: nat)
    ensures ApplyAll(s, ItemsOperations(c, items), v).index == s.index
  {
    if items != [] {
      var front, ops := items[..|items| - 1], ItemOperations(c, items[|items| - 1]);
      ItemsKeepIndex(s, c, front, v);
      ApplyConcat(s, ItemsOperations(c, front), ops, v);
      NoIndexOps(ApplyAll(s, ItemsOperations(c, front), v), ops, v);
    }
  }

  lemma {:induction false} NoIndexOps(s: State, ops: seq<Operation>, v: nat)
    requires forall op :: op in ops ==> op.HsetSnapshot? || op.SaddDirty? || op.HsetDirtyVersion? || op.Xadd?
    ensures ApplyAll(s, ops, v).index == s.index
  {
    if ops != [] {
      NoIndexOps(s, ops[..|ops| - 1], v);
      assert ops[|ops| - 1] in ops;
    }
  }

  lemma ApplyTwo(s: State, a: Operation, b: Operation, v: nat)
    ensures ApplyAll(s, [a, b], v) == Apply(Apply(s, a, v), b, v)
  {
    assert [a, b][..1] == [a] && [a][..0] == [];
    assert ApplyAll(s, [a], v) == Apply(ApplyAll(s, [], v), a, v);
  }

  lemma {:induction false} AdditionsIndex(s: State, entries: seq<Entry>, v: nat)
    ensures ApplyAll(s, Additions(entries), v).index == AddEntries(s.index, entries)
  {
    if entries != [] {
      var front, e := entries[..|entries| - 1], entries[|entries| - 1];
      AdditionsIndex(s, front, v);
      ApplyConcat(s, Additions(front), Addition(e), v);
      AdditionIndex(ApplyAll(s, Additions(front), v), e, v);
    }
  }

  lemma AdditionIndex(s: State, e: Entry, v: nat)
    ensures ApplyAll(s, Addition(e), v).index == AddEntry(s.index, e)
  {
    var a, k := AccountPositions(e.account), ContractKey(e);
    var one, two := SaddPosition(a, e.position), SaddPosition(k, e.position);
    assert Addition(e) == [one, two] + [SaddKey(a), SaddKey(k)];
    ApplyConcat(s, [one, two], [SaddKey(a), SaddKey(k)], v);
    ApplyTwo(s, one, two, v);
    ApplyTwo(Apply(Apply(s, one, v), two, v), SaddKey(a), SaddKey(k), v);
  }

  lemma {:induction false} RemovalsIndex(s: State, entries: seq<Entry>, v: nat)
    ensures ApplyAll(s, Removals(entries), v).index == RemoveEntries(s.index, entries)
  {
    if entries != [] {
      var front, e := entries[..|entries| - 1], entries[|entries| - 1];
      RemovalsIndex(s, front, v);
      ApplyConcat(s, Removals(front), Removal(e), v);
      ApplyTwo(ApplyAll(s, Removals(front), v), Removal(e)[0], Removal(e)[1], v);
    }
  }

  lemma OperationsInTurn(s: State, c: Cycle, v: nat)
    ensures ApplyAll(s, Operations(c), v)
         == ApplyAll(ApplyAll(ApplyAll(ApplyAll(s, ItemsOperations(c, c.positions), v), ItemsOperations(c, c.accounts), v),
              Additions(c.additions), v), Removals(c.removals), v)
  {
    var p, a := ItemsOperations(c, c.positions), ItemsOperations(c, c.accounts);
    ApplyConcat(s, p, a, v);
    ApplyConcat(s, p + a, Additions(c.additions), v);
    ApplyConcat(s, p + a + Additions(c.additions), Removals(c.removals), v);
  }

  /** Of all the operations a cycle prepares, the index sees its additions and then its removals. */
  lemma WrittenIndex(s: State, c: Cycle)
    ensures Written(s, c).index == RemoveEntries(AddEntries(s.index, c.additions), c.removals)
  {
    var begun, v := s.(sequence := s.sequence + 1), s.sequence + 1;
    var afterPositions := ApplyAll(begun, ItemsOperations(c, c.positions), v);
    var afterItems := ApplyAll(afterPositions, ItemsOperations(c, c.accounts), v);
    ItemsKeepIndex(begun, c, c.positions, v);
    ItemsKeepIndex(afterPositions, c, c.accounts, v);
    AdditionsIndex(afterItems, c.additions, v);
    RemovalsIndex(ApplyAll(afterItems, Additions(c.additions), v), c.removals, v);
    OperationsInTurn(begun, c, v);
  }

  /** The plain relation: the positions active after a step. */
  function ActiveAfter(s: State, active: set<string>, step: Step): set<string> {
    match step
    case Write(_, _, c) => if Accepted(s, step) then active + Positions(c.additions) - Positions(c.removals) else active
    case Remove(e) => active - {e.position}
    case Rebuild(expected, entries, _) => if s.cacheVersion == expected then Positions(entries) else active
    case _ => active
  }

  function Active(steps: seq<Step>): set<string> {
    if steps == [] then {} else
      ActiveAfter(Run(steps[..|steps| - 1]), Active(steps[..|steps| - 1]), steps[|steps| - 1])
  }

  /** Every step names positions by the account and contract their id fixes. */
  ghost predicate StepConforms(home: map<string, Entry>, step: Step) {
    match step
    case Write(_, _, c) => AllConform(home, c.additions) && AllConform(home, c.removals)
    case Remove(e) => Conforms(home, e)
    case Rebuild(_, entries, _) => AllConform(home, entries)
    case _ => true
  }

  /** Index refinement: after any run of cycle writes, removals and rebuilds the position sets are the
      projections of the active positions, and every one of them is listed. */
  lemma {:induction false} RunProjects(steps: seq<Step>, home: map<string, Entry>)
    requires forall i :: 0 <= i < |steps| ==> StepConforms(home, steps[i])
    ensures Projects(Run(steps).index, home, Active(steps)) && Listed(Run(steps).index)
  {
    if steps != [] {
      var front, last := steps[..|steps| - 1], steps[|steps| - 1];
      assert forall i :: 0 <= i < |front| ==> front[i] == steps[i];
      RunProjects(front, home);
      StepProjects(Run(front), home, Active(front), last);
    }
  }

  /** Active positions are known ones. */
  lemma {:induction false} ActiveKnown(steps: seq<Step>, home: map<string, Entry>)
    requires forall i :: 0 <= i < |steps| ==> StepConforms(home, steps[i])
    ensures Active(steps) <= home.Keys
  {
    if steps != [] {
      var front, last := steps[..|steps| - 1], steps[|steps| - 1];
      assert forall i :: 0 <= i < |front| ==> front[i] == steps[i];
      ActiveKnown(front, home);
      StepKnown(Run(front), home, Active(front), last);
    }
  }

  lemma StepKnown(s: State, home: map<string, Entry>, active: set<string>, step: Step)
    ensures active <= home.Keys && StepConforms(home, step) ==> ActiveAfter(s, active, step) <= home.Keys
  {}

  /** The exchange has no separator in it and the order book is not blank. */
  predicate PlainContract(e: Entry) {
    ':' !in e.exchange && Normal(e.orderBook) != []
  }

  /** With plain contracts, the codes listed after any run are exactly the normalised order books of the
      active positions. */
  lemma RunActiveCodes(steps: seq<Step>, home: map<string, Entry>, code: Text)
    requires forall i :: 0 <= i < |steps| ==> StepConforms(home, steps[i])
    requires forall p :: p in home ==> PlainContract(home[p])
    ensures Active(steps) <= home.Keys
    ensures code in ActiveCodes(Run(steps).index) <==> exists p :: p in Active(steps) && Normal(home[p].orderBook) == code
  {
    var active := Active(steps);
    RunProjects(steps, home);
    ActiveKnown(steps, home);
    ActiveCodesIff(Run(steps).index, home, active, code);
    forall p | p in active ensures CodeOf(ContractKey(home[p]).code) == Some(Normal(home[p].orderBook)) {
      CodeOfIff(home[p].exchange, home[p].orderBook);
    }
  }

  lemma StepProjects(s: State, home: map<string, Entry>, active: set<string>, step: Step)
    requires Projects(s.index, home, active) && Listed(s.index) && StepConforms(home, step)
    ensures Projects(Next(s, step).index, home, ActiveAfter(s, active, step)) && Listed(Next(s, step).index)
  {
    if Accepted(s, step) {
      var c := step.cycle;
      WrittenIndex(s, c);
      AddEntriesKeep(s.index, home, active, c.additions);
      RemoveEntriesKeep(AddEntries(s.index, c.additions), home, active + Positions(c.additions), c.removals);
    } else if step.Remove? {
      RemoveKeepsProjects(s.index, home, active, step.entry);
    } else if step.Rebuild? {
      RebuildRestores(s.index, home, step.entries);
    }
  }
}

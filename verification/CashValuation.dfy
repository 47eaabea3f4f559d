/** The cash-security valuation workers: any number race for the writer lease, and each lists, values,
    publishes and completes a batch while facts change. */
module CashValuation {
  import opened Options
  import opened ValuationStore

  /** Work taken from the queue: an account and the dirty version seen for it. */
  datatype Task = Task(account: string, version: Version)

  datatype Stage =
    | Batch(todo: seq<Task>)
    | Valued(task: Task, snapshot: nat, todo: seq<Task>)
    | Published(task: Task, todo: seq<Task>)
    | Uncommitted(task: Task, snapshot: nat, todo: seq<Task>)

  datatype Worker = Worker(token: Option<nat>, stage: Stage)

  /** `facts` counts the changes to each account's facts; `durable` and `published` say which of them the
      PostgreSQL valuation and the Redis snapshot reflect; `unannounced` counts committed changes whose
      dirty mark is still on its way. `owners[t - 1]` is whom token `t` was issued to and `writes` the
      tokens of the durable writes so far. */
  datatype System = System(
    facts: map<string, nat>,
    unannounced: map<string, nat>,
    durable: map<string, nat>,
    published: map<string, nat>,
    store: Store,
    fence: Option<Lease>,
    workers: map<string, Worker>,
    owners: seq<string>,
    writes: seq<nat>)

  /** Facts change with an announcement on its way, it arrives, or an old one is delivered again. */
  datatype FactStep =
    | ChangeFact(account: string)
    | Announce(account: string, reason: string)
    | Remark(account: string, reason: string)

  /** What a worker does with the lease, the fence and its own token; a worker may lose its token (or
      restart) at any point. */
  datatype LeaseStep = Acquire | Activate | Release | Forget

  /** What a worker does with its batch; `Retain` gives a task up, for instance for want of a price.
      `FailCommit`: the commit raises once the snapshot is computed, applied or not; the snapshot is
      published all the same and the task is not completed. `FailPublish`: publishing raises, applied or
      not, and the task is not completed either. */
  datatype WorkStep =
    | List(tasks: seq<Task>)
    | Value
    | FailCommit(applied: bool)
    | Publish
    | FailPublish(applied: bool)
    | Complete
    | Retain

  datatype Step =
    | Expire
    | Facts(fact: FactStep)
    | Leases(worker: string, lease: LeaseStep)
    | Work(worker: string, work: WorkStep)

  const IDLE := Worker(None, Batch([]))

  /** `lease` is worker `w`'s own lease value. */
  predicate Holds(s: System, w: string, lease: Option<Lease>) {
    w in s.workers && s.workers[w].token.Some? && lease == Some(Lease(w, s.workers[w].token.value))
  }

  predicate FactEnabled(s: System, step: FactStep) {
    step.account in s.facts && step.account in s.unannounced && (step.Announce? ==> s.unannounced[step.account] > 0)
  }

  function FactNext(s: System, step: FactStep): System
    requires FactEnabled(s, step)
  {
    var a := step.account;
    match step
    case ChangeFact(_) => s.(facts := s.facts[a := s.facts[a] + 1], unannounced := s.unannounced[a := s.unannounced[a] + 1])
    case Announce(_, reason) => s.(unannounced := s.unannounced[a := s.unannounced[a] - 1], store := MarkDirty(s.store, a, reason))
    case Remark(_, reason) => s.(store := MarkDirty(s.store, a, reason))
  }

  predicate LeaseEnabled(s: System, w: string, step: LeaseStep) {
    && w in s.workers
    && (step.Acquire? ==> s.workers[w] == IDLE && s.store.lease.None?)
    && (step.Activate? || step.Release? ==> s.workers[w].token.Some?)
  }

  function LeaseNext(s: System, w: string, step: LeaseStep): System
    requires LeaseEnabled(s, w, step)
  {
    match step
    case Acquire =>
      s.(store := AcquireLease(s.store, w), owners := s.owners + [w],
         workers := s.workers[w := Worker(Some(s.store.tokens + 1), Batch([]))])
    case Activate =>
      var lease := Lease(w, s.workers[w].token.value);
      if Activates(s.fence, lease) then s.(fence := Activated(s.fence, lease))
      else s.(store := ReleaseLease(s.store, lease), workers := s.workers[w := IDLE])
    case Release => s.(store := ReleaseLease(s.store, Lease(w, s.workers[w].token.value)), workers := s.workers[w := IDLE])
    case Forget => s.(workers := s.workers[w := IDLE])
  }

  predicate WorkEnabled(s: System, w: string, step: WorkStep) {
    w in s.workers &&
    var stage := s.workers[w].stage;
    match step
    case List(tasks) =>
      s.workers[w].token.Some? && stage == Batch([])
      && forall t :: t in tasks ==> Completes(s.store, t.account, t.version) && t.account in s.facts
    case Value => stage.Batch? && stage.todo != [] && stage.todo[0].account in s.facts
    case FailCommit(_) => stage.Batch? && stage.todo != [] && stage.todo[0].account in s.facts
    case Publish => stage.Valued? || stage.Uncommitted?
    case FailPublish(_) => stage.Valued? || stage.Uncommitted?
    case Complete => stage.Published?
    case Retain => stage.Batch? ==> stage.todo != []
  }

  function SetStage(s: System, w: string, stage: Stage): System
    requires w in s.workers
  {
    s.(workers := s.workers[w := s.workers[w].(stage := stage)])
  }

  /** What a work step changes besides the worker's stage. */
  datatype Change =
    | Nothing
    | Values(account: string)
    | Publishes(account: string, snapshot: nat)
    | Clears(task: Task)

  /** Valuing takes the facts the transaction sees, under the fence. */
  function Changed(s: System, c: Change): System
    requires c.Values? ==> s.fence.Some? && c.account in s.facts
  {
    match c
    case Nothing => s
    case Values(a) => s.(durable := s.durable[a := s.facts[a]], writes := s.writes + [s.fence.value.token])
    case Publishes(a, snapshot) => s.(published := s.published[a := snapshot])
    case Clears(task) => s.(store := CompleteDirty(s.store, task.account, task.version))
  }

  function ChangeOf(s: System, w: string, step: WorkStep): Change
    requires WorkEnabled(s, w, step)
  {
    var stage := s.workers[w].stage;
    match step
    case Value => if Holds(s, w, s.fence) then Values(stage.todo[0].account) else Nothing
    case FailCommit(applied) => if applied && Holds(s, w, s.fence) then Values(stage.todo[0].account) else Nothing
    case Publish => if Holds(s, w, s.store.lease) then Publishes(stage.task.account, stage.snapshot) else Nothing
    case FailPublish(applied) =>
      if applied && Holds(s, w, s.store.lease) then Publishes(stage.task.account, stage.snapshot) else Nothing
    case Complete => Clears(stage.task)
    case _ => Nothing
  }

  function StageAfter(s: System, w: string, step: WorkStep): Stage
    requires WorkEnabled(s, w, step)
  {
    var stage := s.workers[w].stage;
    match step
    case List(tasks) => Batch(tasks)
    case Value =>
      if Holds(s, w, s.fence) then Valued(stage.todo[0], s.facts[stage.todo[0].account], stage.todo[1..]) else Batch([])
    case FailCommit(_) =>
      if Holds(s, w, s.fence) then Uncommitted(stage.todo[0], s.facts[stage.todo[0].account], stage.todo[1..]) else Batch([])
    case Publish =>
      if stage.Valued? && Holds(s, w, s.store.lease) then Published(stage.task, stage.todo) else Batch(stage.todo)
    case Retain => Batch(if stage.Batch? then stage.todo[1..] else stage.todo)
    case _ => Batch(stage.todo)
  }

  function WorkNext(s: System, w: string, step: WorkStep): System
    requires WorkEnabled(s, w, step)
  {
    SetStage(Changed(s, ChangeOf(s, w, step)), w, StageAfter(s, w, step))
  }

  predicate Enabled(s: System, step: Step) {
    match step
    case Expire => true
    case Facts(f) => FactEnabled(s, f)
    case Leases(w, l) => LeaseEnabled(s, w, l)
    case Work(w, k) => WorkEnabled(s, w, k)
  }

  /** A step that is not enabled does not happen. */
  function Next(s: System, step: Step): System {
    if !Enabled(s, step) then s
    else
      match step
      case Expire => s.(store := s.store.(lease := None))
      case Facts(f) => FactNext(s, f)
      case Leases(w, l) => LeaseNext(s, w, l)
      case Work(w, k) => WorkNext(s, w, k)
  }

  function Run(s: System, steps: seq<Step>): System
    decreases |steps|
  {
    if steps == [] then s else Run(Next(s, steps[0]), steps[1..])
  }

  /** Everything valued and published, no lease, no token issued, workers idle. */
  predicate Initial(s: System) {
    && s.unannounced.Keys == s.durable.Keys == s.published.Keys == s.facts.Keys
    && (forall a :: a in s.facts ==> s.durable[a] == s.facts[a] == s.published[a])
    && s.store == Store(map[], 0, None, 0) && s.fence == None && s.owners == [] && s.writes == []
    && (forall w :: w in s.workers ==> s.workers[w] == IDLE)
  }

  // --- Invariants.

  /** Account `a` is valued in PostgreSQL and published in Redis from its latest facts. */
  predicate Current(s: System, a: string) {
    a in s.facts && a in s.durable && a in s.published && s.durable[a] == s.facts[a] == s.published[a]
  }

  predicate Shaped(s: System) {
    s.unannounced.Keys == s.durable.Keys == s.published.Keys == s.facts.Keys
  }

  /** A token was issued, and to its holder. */
  predicate Issued(s: System, lease: Lease) {
    1 <= lease.token <= |s.owners| && s.owners[lease.token - 1] == lease.owner
  }

  ghost predicate TokensInv(s: System) {
    && s.store.tokens == |s.owners|
    && (s.store.lease.Some? ==> Issued(s, s.store.lease.value))
    && (s.fence.Some? ==> Issued(s, s.fence.value))
    && (forall w :: w in s.workers ==> TokenInv(s, w))
  }

  predicate TokenInv(s: System, w: string) {
    w in s.workers && s.workers[w].token.Some? ==> Issued(s, Lease(w, s.workers[w].token.value))
  }

  /** Durable writes are accepted in token order, none past the fence. */
  ghost predicate WritesInv(s: System) {
    && (forall i, j :: 0 <= i < j < |s.writes| ==> s.writes[i] <= s.writes[j])
    && (s.writes != [] ==> s.fence.Some? && s.writes[|s.writes| - 1] <= s.fence.value.token)
  }

  /** What account `a` and version `v` seen by a worker still tell: unless `a` was marked again or a change
      is unannounced, `done` describes the latest facts. */
  predicate StillTrue(s: System, task: Task, done: bool) {
    && task.account in s.unannounced
    && (Completes(s.store, task.account, task.version) ==> done || s.unannounced[task.account] > 0)
  }

  predicate StageInv(s: System, w: string) {
    && Shaped(s) && w in s.workers
    && match s.workers[w].stage
    case Batch(_) => true
    case Valued(task, snapshot, _) =>
      var a := task.account;
      && a in s.facts && task.version.number <= s.store.sequence
      && snapshot <= s.facts[a]
      && StillTrue(s, task, s.durable[a] == s.facts[a] == snapshot)
      && (Holds(s, w, s.store.lease) ==> s.published[a] <= snapshot)
    case Uncommitted(task, snapshot, _) =>
      var a := task.account;
      && a in s.facts && task.version.number <= s.store.sequence
      && snapshot <= s.facts[a]
      && (Holds(s, w, s.store.lease) ==> s.published[a] <= snapshot)
    case Published(task, _) =>
      && task.account in s.facts && task.version.number <= s.store.sequence
      && StillTrue(s, task, Current(s, task.account))
  }

  predicate AccountInv(s: System, a: string) {
    && Shaped(s) && a in s.facts
    && s.durable[a] <= s.facts[a] && s.published[a] <= s.facts[a]
    && (a in s.store.dirty ==> s.store.dirty[a].number <= s.store.sequence)
    && (Current(s, a) || a in s.store.dirty || s.unannounced[a] > 0)
  }

  predicate TasksInv(s: System) {
    forall w, t :: w in s.workers && t in s.workers[w].stage.todo ==> t.account in s.facts && t.version.number <= s.store.sequence
  }

  ghost predicate Inv(s: System) {
    && Shaped(s) && TokensInv(s) && WritesInv(s) && TasksInv(s)
    && (forall a :: a in s.facts ==> AccountInv(s, a))
    && (forall w :: w in s.workers ==> StageInv(s, w))
  }

  /** Two workers never hold the same token. */
  lemma TokensAreUnique(s: System, v: string, w: string)
    requires TokensInv(s) && v in s.workers && w in s.workers && v != w
    requires s.workers[v].token.Some? && s.workers[w].token.Some?
    ensures s.workers[v].token != s.workers[w].token
    ensures !(Holds(s, v, s.store.lease) && Holds(s, w, s.store.lease))
  {
    assert TokenInv(s, v) && TokenInv(s, w);
  }

  // --- One step at a time.

  lemma FactKeepsAccount(s: System, step: FactStep, a: string)
    ensures FactEnabled(s, step) && AccountInv(s, a) ==> AccountInv(FactNext(s, step), a)
  {}

  lemma FactKeepsStage(s: System, step: FactStep, w: string)
    ensures FactEnabled(s, step) && StageInv(s, w) ==> StageInv(FactNext(s, step), w)
  {}

  lemma FactFrame(s: System, step: FactStep)
    requires Shaped(s) && FactEnabled(s, step)
    ensures var t := FactNext(s, step);
      && Shaped(t) && t.facts.Keys == s.facts.Keys && t.workers == s.workers && t.owners == s.owners
      && t.store.tokens == s.store.tokens && t.store.lease == s.store.lease && t.fence == s.fence
      && t.writes == s.writes && s.store.sequence <= t.store.sequence
  {}

  lemma SameTokensKept(s: System, t: System)
    requires TokensInv(s) && t.owners == s.owners && t.store.tokens == s.store.tokens
    requires t.store.lease == s.store.lease && t.fence == s.fence && t.workers.Keys == s.workers.Keys
    requires forall w :: w in s.workers ==> t.workers[w].token == s.workers[w].token
    ensures TokensInv(t)
  {
    forall w | w in t.workers ensures TokenInv(t, w) { assert TokenInv(s, w); }
  }

  lemma FactKeepsInvariant(s: System, step: FactStep)
    requires Inv(s) && FactEnabled(s, step)
    ensures Inv(FactNext(s, step))
  {
    var t := FactNext(s, step);
    FactFrame(s, step);
    SameTokensKept(s, t);
    forall a | a in t.facts ensures AccountInv(t, a) { FactKeepsAccount(s, step, a); }
    forall w | w in t.workers ensures StageInv(t, w) { FactKeepsStage(s, step, w); }
  }

  lemma LeaseFrame(s: System, w: string, step: LeaseStep)
    requires LeaseEnabled(s, w, step)
    ensures var t := LeaseNext(s, w, step);
      && t == s.(store := t.store, fence := t.fence, workers := t.workers, owners := t.owners)
      && t.store.dirty == s.store.dirty && t.store.sequence == s.store.sequence
      && t.workers.Keys == s.workers.Keys
      && (forall v :: v in s.workers && v != w ==> t.workers[v] == s.workers[v])
      && (t.workers[w].stage == Batch([]) || (t.store == s.store && t.workers[w] == s.workers[w]))
  {}

  lemma LeaseKeepsTokens(s: System, w: string, step: LeaseStep)
    requires TokensInv(s) && LeaseEnabled(s, w, step)
    ensures TokensInv(LeaseNext(s, w, step))
  {
    LeaseKeepsIssued(s, w, step);
    forall v | v in LeaseNext(s, w, step).workers ensures TokenInv(LeaseNext(s, w, step), v) {
      LeaseKeepsToken(s, w, step, v);
    }
  }

  lemma LeaseKeepsToken(s: System, w: string, step: LeaseStep, v: string)
    requires TokensInv(s) && LeaseEnabled(s, w, step)
    ensures TokenInv(LeaseNext(s, w, step), v)
  {
    assert v in s.workers ==> TokenInv(s, v);
  }

  lemma LeaseKeepsIssued(s: System, w: string, step: LeaseStep)
    requires TokensInv(s) && LeaseEnabled(s, w, step)
    ensures var t := LeaseNext(s, w, step);
      && t.store.tokens == |t.owners| && t.workers.Keys == s.workers.Keys
      && (t.store.lease.Some? ==> Issued(t, t.store.lease.value))
      && (t.fence.Some? ==> Issued(t, t.fence.value))
  {
    assert TokenInv(s, w);
    if step.Acquire? {
      NewTokenIssued(s, w);
    }
  }

  lemma NewTokenIssued(s: System, w: string)
    requires TokensInv(s) && LeaseEnabled(s, w, Acquire)
    ensures Issued(LeaseNext(s, w, Acquire), Lease(w, s.store.tokens + 1))
    ensures forall lease :: Issued(s, lease) ==> Issued(LeaseNext(s, w, Acquire), lease)
  {}

  /** A holder of the new lease either held the old one or is the worker that just acquired. */
  lemma LeaseHolderBefore(s: System, w: string, step: LeaseStep, v: string)
    requires LeaseEnabled(s, w, step) && v != w
    ensures Holds(LeaseNext(s, w, step), v, LeaseNext(s, w, step).store.lease) ==> Holds(s, v, s.store.lease)
  {}

  /** Whatever happens to leases and tokens, a lease holder that is past valuation held it before. */
  lemma LeaseKeepsStage(s: System, w: string, step: LeaseStep, v: string)
    requires LeaseEnabled(s, w, step) && StageInv(s, v)
    ensures StageInv(LeaseNext(s, w, step), v)
  {
    var t := LeaseNext(s, w, step);
    LeaseFrame(s, w, step);
    if v != w {
      LeaseHolderBefore(s, w, step, v);
      FrameKeepsStage(s, t, v);
    } else if t.workers[w].stage != Batch([]) {
      FrameKeepsStage(s, t, v);
    }
  }

  lemma FrameKeepsStage(s: System, t: System, v: string)
    requires StageInv(s, v) && v in t.workers
    requires t == s.(store := t.store, fence := t.fence, workers := t.workers, owners := t.owners)
    requires t.store.dirty == s.store.dirty && t.store.sequence == s.store.sequence && t.workers[v] == s.workers[v]
    requires Holds(t, v, t.store.lease) ==> Holds(s, v, s.store.lease)
    ensures StageInv(t, v)
  {}

  lemma LeaseKeepsInvariant(s: System, w: string, step: LeaseStep)
    requires Inv(s) && LeaseEnabled(s, w, step)
    ensures Inv(LeaseNext(s, w, step))
  {
    var t := LeaseNext(s, w, step);
    LeaseFrame(s, w, step);
    LeaseKeepsTokens(s, w, step);
    forall v | v in t.workers ensures StageInv(t, v) { LeaseKeepsStage(s, w, step, v); }
    LeaseKeepsTasks(s, t);
    forall a | a in t.facts ensures AccountInv(t, a) { LeaseKeepsAccount(s, t, a); }
  }

  lemma LeaseKeepsAccount(s: System, t: System, a: string)
    requires AccountInv(s, a)
    requires t == s.(store := t.store, fence := t.fence, workers := t.workers, owners := t.owners)
    requires t.store.dirty == s.store.dirty && t.store.sequence == s.store.sequence
    ensures AccountInv(t, a)
  {}

  lemma LeaseKeepsTasks(s: System, t: System)
    requires TasksInv(s)
    requires t == s.(store := t.store, fence := t.fence, workers := t.workers, owners := t.owners)
    requires t.store.dirty == s.store.dirty && t.store.sequence == s.store.sequence && t.workers.Keys == s.workers.Keys
    requires forall v :: v in s.workers ==> t.workers[v].stage == s.workers[v].stage || t.workers[v].stage == Batch([])
    ensures TasksInv(t)
  {}

  /** What is known of a change when it happens. */
  predicate Sound(s: System, c: Change) {
    Shaped(s) && match c
    case Nothing => true
    case Values(a) => s.fence.Some? && a in s.facts
    case Publishes(a, snapshot) => a in s.facts && s.published[a] <= snapshot <= s.facts[a]
    case Clears(task) => task.account in s.facts && StillTrue(s, task, Current(s, task.account))
  }

  lemma ChangeIsSound(s: System, w: string, step: WorkStep)
    ensures WorkEnabled(s, w, step) && StageInv(s, w) ==> Sound(s, ChangeOf(s, w, step))
  {}

  lemma ChangedFrame(s: System, c: Change)
    requires Sound(s, c)
    ensures var t := Changed(s, c);
      && t == s.(durable := t.durable, published := t.published, store := t.store, writes := t.writes)
      && t.store == s.store.(dirty := t.store.dirty) && Shaped(t)
      && (t.writes == s.writes || (s.fence.Some? && t.writes == s.writes + [s.fence.value.token]))
  {}

  lemma WorkFrame(s: System, w: string, step: WorkStep)
    requires WorkEnabled(s, w, step) && StageInv(s, w)
    ensures var t := WorkNext(s, w, step);
      && t == Changed(s, ChangeOf(s, w, step)).(workers := s.workers[w := Worker(s.workers[w].token, StageAfter(s, w, step))])
      && t.facts == s.facts && t.fence == s.fence && t.owners == s.owners && Shaped(t)
      && t.store == s.store.(dirty := t.store.dirty)
      && (t.writes == s.writes || (s.fence.Some? && t.writes == s.writes + [s.fence.value.token]))
  {
    ChangeIsSound(s, w, step);
    ChangedFrame(s, ChangeOf(s, w, step));
  }

  lemma WorkKeepsTokens(s: System, w: string, step: WorkStep)
    requires WorkEnabled(s, w, step) && StageInv(s, w) && TokensInv(s)
    ensures TokensInv(WorkNext(s, w, step))
  {
    WorkFrame(s, w, step);
    SameTokensKept(s, WorkNext(s, w, step));
  }

  lemma WorkKeepsWrites(s: System, w: string, step: WorkStep)
    requires WorkEnabled(s, w, step) && StageInv(s, w) && WritesInv(s)
    ensures WritesInv(WorkNext(s, w, step))
  {
    WorkFrame(s, w, step);
    FencedWrite(s, WorkNext(s, w, step));
  }

  lemma FencedWrite(s: System, t: System)
    requires WritesInv(s) && t.fence == s.fence
    requires t.writes == s.writes || (s.fence.Some? && t.writes == s.writes + [s.fence.value.token])
    ensures WritesInv(t)
  {}

  /** Every task left in the worker's batch was listed before or is listed now. */
  lemma StageAfterTasks(s: System, w: string, step: WorkStep, task: Task)
    requires TasksInv(s) && WorkEnabled(s, w, step) && task in StageAfter(s, w, step).todo
    requires task.account in s.facts ==> AccountInv(s, task.account)
    ensures task.account in s.facts && task.version.number <= s.store.sequence
  {
    if !step.List? {
      assert task in s.workers[w].stage.todo;
    }
  }

  lemma WorkKeepsTasks(s: System, w: string, step: WorkStep)
    requires TasksInv(s) && WorkEnabled(s, w, step) && StageInv(s, w)
    requires forall a :: a in s.facts ==> AccountInv(s, a)
    ensures TasksInv(WorkNext(s, w, step))
  {
    var t := WorkNext(s, w, step);
    WorkFrame(s, w, step);
    forall v, x | v in t.workers && x in t.workers[v].stage.todo
      ensures x.account in t.facts && x.version.number <= t.store.sequence
    {
      if v == w {
        StageAfterTasks(s, w, step, x);
      }
    }
  }

  lemma ChangedKeepsAccount(s: System, c: Change, a: string)
    ensures Sound(s, c) && AccountInv(s, a) ==> AccountInv(Changed(s, c), a)
  {}

  /** A change keeps what any worker that does not hold the lease, or any at all if nothing is published,
      relies on. */
  lemma ChangedKeepsStage(s: System, c: Change, v: string)
    requires Sound(s, c) && StageInv(s, v) && (c.Publishes? ==> !Holds(s, v, s.store.lease))
    ensures StageInv(Changed(s, c), v)
  {
    ChangedFrame(s, c);
  }

  lemma OwnWorkKeepsStage(s: System, w: string, step: WorkStep)
    requires TasksInv(s) && WorkEnabled(s, w, step) && StageInv(s, w)
    requires forall a :: a in s.facts ==> AccountInv(s, a)
    ensures StageInv(WorkNext(s, w, step), w)
  {
    WorkFrame(s, w, step);
    if step.Value? || step.FailCommit? {
      assert s.workers[w].stage.todo[0] in s.workers[w].stage.todo;
      assert AccountInv(s, s.workers[w].stage.todo[0].account);
    }
  }

  lemma OtherWorkKeepsStage(s: System, w: string, step: WorkStep, v: string)
    requires WorkEnabled(s, w, step) && StageInv(s, w) && v != w && StageInv(s, v)
    ensures StageInv(WorkNext(s, w, step), v)
  {
    var c := ChangeOf(s, w, step);
    ChangeIsSound(s, w, step);
    ChangedKeepsStage(s, c, v);
    assert WorkNext(s, w, step).workers[v] == s.workers[v];
  }

  lemma WorkKeepsAccount(s: System, w: string, step: WorkStep, a: string)
    requires WorkEnabled(s, w, step) && StageInv(s, w) && AccountInv(s, a)
    ensures AccountInv(WorkNext(s, w, step), a)
  {
    ChangeIsSound(s, w, step);
    ChangedKeepsAccount(s, ChangeOf(s, w, step), a);
  }

  lemma WorkKeepsInvariant(s: System, w: string, step: WorkStep)
    requires Inv(s) && WorkEnabled(s, w, step)
    ensures Inv(WorkNext(s, w, step))
  {
    var t := WorkNext(s, w, step);
    assert StageInv(s, w);
    WorkKeepsTokens(s, w, step);
    WorkKeepsWrites(s, w, step);
    WorkKeepsTasks(s, w, step);
    WorkFrame(s, w, step);
    forall a | a in t.facts ensures AccountInv(t, a) {
      WorkKeepsAccount(s, w, step, a);
    }
    forall v | v in t.workers ensures StageInv(t, v) {
      if v == w { OwnWorkKeepsStage(s, w, step); } else { OtherWorkKeepsStage(s, w, step, v); }
    }
  }

  lemma ExpireKeepsInvariant(s: System)
    requires Inv(s)
    ensures Inv(Next(s, Expire))
  {
    var t := Next(s, Expire);
    forall a | a in t.facts ensures AccountInv(t, a) {
      assert AccountInv(s, a);
    }
    forall v | v in t.workers ensures StageInv(t, v) {
      assert StageInv(s, v);
    }
  }

  // --- Whole runs.

  lemma {:induction false} RunKeepsInvariant(s: System, steps: seq<Step>)
    requires Inv(s)
    ensures Inv(Run(s, steps))
    decreases |steps|
  {
    if steps != [] {
      if Enabled(s, steps[0]) {
        match steps[0] {
          case Expire => ExpireKeepsInvariant(s);
          case Facts(f) => FactKeepsInvariant(s, f);
          case Leases(w, l) => LeaseKeepsInvariant(s, w, l);
          case Work(w, k) => WorkKeepsInvariant(s, w, k);
        }
      }
      RunKeepsInvariant(Next(s, steps[0]), steps[1..]);
    }
  }

  /** Clean means current: after any run of any number of workers, with leases expiring at any time and
      workers delayed at any point, an account that is not dirty and has no announcement on its way is
      valued in PostgreSQL and published in Redis from its latest facts. */
  lemma CleanMeansCurrent(start: System, steps: seq<Step>, a: string)
    requires Initial(start) && a in Run(start, steps).facts
    ensures var s := Run(start, steps);
      && a in s.unannounced && a in s.durable && a in s.published
      && (a !in s.store.dirty && s.unannounced[a] == 0 ==> Current(s, a))
  {
    RunKeepsInvariant(start, steps);
    assert AccountInv(Run(start, steps), a);
  }

  ghost predicate FenceAdvances(s: Option<Lease>, t: Option<Lease>) {
    s.Some? ==> t.Some? && s.value.token <= t.value.token
  }

  lemma LeaseOnlyAdvances(s: System, w: string, step: LeaseStep)
    requires LeaseEnabled(s, w, step)
    ensures var t := LeaseNext(s, w, step);
      s.owners <= t.owners && s.writes == t.writes && FenceAdvances(s.fence, t.fence)
  {}

  lemma WorkOnlyAdvances(s: System, w: string, step: WorkStep)
    requires WorkEnabled(s, w, step)
    ensures var t := WorkNext(s, w, step);
      s.owners == t.owners && s.writes <= t.writes && s.fence == t.fence
  {
    var t := Changed(s, ChangeOf(s, w, step));
    assert s.owners == t.owners && s.writes <= t.writes && s.fence == t.fence;
  }

  lemma StepOnlyAdvances(s: System, step: Step)
    ensures var t := Next(s, step);
      s.owners <= t.owners && s.writes <= t.writes && FenceAdvances(s.fence, t.fence)
  {
    if Enabled(s, step) {
      match step {
        case Leases(w, l) => LeaseOnlyAdvances(s, w, l);
        case Work(w, k) => WorkOnlyAdvances(s, w, k);
        case _ =>
      }
    }
  }

  /** Over any run issued tokens only grow in number, the durable fence never goes back, and the history of
      accepted durable writes is only extended. */
  lemma {:induction false} RunOnlyAdvances(s: System, steps: seq<Step>)
    ensures var t := Run(s, steps);
      s.owners <= t.owners && s.writes <= t.writes && FenceAdvances(s.fence, t.fence)
    decreases |steps|
  {
    if steps != [] {
      StepOnlyAdvances(s, steps[0]);
      RunOnlyAdvances(Next(s, steps[0]), steps[1..]);
    }
  }

  /** A worker with a larger token than `w`'s has activated the fence. */
  predicate Overtaken(s: System, w: string) {
    w in s.workers && s.fence.Some? && s.workers[w].token.Some? && s.workers[w].token.value < s.fence.value.token
  }

  lemma OvertakenWritesNothing(s: System, w: string, step: WorkStep)
    requires Overtaken(s, w) && WorkEnabled(s, w, step)
    ensures WorkNext(s, w, step).durable == s.durable && WorkNext(s, w, step).writes == s.writes
  {
    assert !ChangeOf(s, w, step).Values?;
  }

  /** Fencing over whole runs: a token belongs to one worker, durable writes are accepted in token order,
      and once a worker with a larger token has activated the fence, a delayed one writes nothing. */
  lemma Fencing(start: System, steps: seq<Step>, w: string)
    requires Initial(start)
    ensures var s := Run(start, steps);
      && (forall i, j :: 0 <= i < j < |s.writes| ==> s.writes[i] <= s.writes[j])
      && (forall v :: v in s.workers && w in s.workers && v != w && s.workers[v].token.Some?
            ==> s.workers[v].token != s.workers[w].token)
      && (Overtaken(s, w) ==> forall step :: WorkEnabled(s, w, step) ==>
            WorkNext(s, w, step).durable == s.durable && WorkNext(s, w, step).writes == s.writes)
  {
    RunKeepsInvariant(start, steps);
    var s := Run(start, steps);
    if Overtaken(s, w) {
      forall step | WorkEnabled(s, w, step)
        ensures WorkNext(s, w, step).durable == s.durable && WorkNext(s, w, step).writes == s.writes {
        OvertakenWritesNothing(s, w, step);
      }
    }
    forall v | v in s.workers && w in s.workers && v != w && s.workers[v].token.Some?
      ensures s.workers[v].token != s.workers[w].token {
      if s.workers[w].token.Some? {
        TokensAreUnique(s, v, w);
      }
    }
  }

  /** Worker `w` holds the lease without having activated the fence, as after an activation that raised, and
      the others are idle. */
  predicate Stalled(s: System, w: string) {
    Holds(s, w, s.store.lease) && !Holds(s, w, s.fence) && s.workers[w].stage.Batch?
    && forall v :: v in s.workers && v != w ==> s.workers[v] == IDLE
  }

  /** While the lease lasts, such a worker renews it, and its code never activates the fence again. */
  predicate Renewing(step: Step, w: string) {
    !step.Expire? && (step.Leases? ==> step.worker != w)
  }

  lemma StallLasts(s: System, w: string, step: Step)
    requires Stalled(s, w) && Renewing(step, w)
    ensures var t := Next(s, step);
      && Stalled(t, w) && t.store.lease == s.store.lease && t.owners == s.owners && t.writes == s.writes
      && t.durable == s.durable && t.published == s.published && s.store.dirty.Keys <= t.store.dirty.Keys
  {
    if Enabled(s, step) {
      match step {
        case Facts(f) => FactsKeepStall(s, w, f);
        case Work(v, k) =>
          assert v == w;
          WorkKeepsStall(s, w, k);
        case _ =>
      }
    }
  }

  lemma FactsKeepStall(s: System, w: string, step: FactStep)
    requires FactEnabled(s, step)
    ensures var t := FactNext(s, step);
      t == s.(facts := t.facts, unannounced := t.unannounced, store := t.store) && t.store.lease == s.store.lease
      && s.store.dirty.Keys <= t.store.dirty.Keys
  {}

  lemma WorkKeepsStall(s: System, w: string, step: WorkStep)
    requires Stalled(s, w) && WorkEnabled(s, w, step)
    ensures exists todo :: WorkNext(s, w, step) == SetStage(s, w, Batch(todo))
  {
    assert ChangeOf(s, w, step) == Nothing;
    assert WorkNext(s, w, step) == SetStage(s, w, Batch(StageAfter(s, w, step).todo));
  }

  /** From then on, for as long as the lease is renewed, nothing is valued or published, no account leaves the
      dirty queue and no other worker gets a token, whatever facts change. */
  lemma {:induction false} StalledServesNothing(s: System, w: string, steps: seq<Step>)
    requires Stalled(s, w) && forall step :: step in steps ==> Renewing(step, w)
    ensures var t := Run(s, steps);
      && Stalled(t, w) && t.store.lease == s.store.lease && t.owners == s.owners && t.writes == s.writes
      && t.durable == s.durable && t.published == s.published && s.store.dirty.Keys <= t.store.dirty.Keys
    decreases |steps|
  {
    if steps != [] {
      StallLasts(s, w, steps[0]);
      StalledServesNothing(Next(s, steps[0]), w, steps[1..]);
    }
  }

  /** Every acquisition passes through such a state, and the activation that follows ends it: only if that
      call raises does the worker stay there. */
  lemma AcquiredIsStalled(s: System, w: string)
    requires TokensInv(s) && LeaseEnabled(s, w, Acquire)
    requires forall v :: v in s.workers ==> s.workers[v] == IDLE
    ensures var t := Next(s, Leases(w, Acquire));
      && Stalled(t, w) && LeaseEnabled(t, w, Activate)
      && var u := Next(t, Leases(w, Activate)); Holds(u, w, u.fence) && Holds(u, w, u.store.lease)
  {}

  /** The holder of both leases, with a task in hand that is still dirty as listed. */
  predicate Serving(s: System, w: string, task: Task) {
    w in s.workers && Holds(s, w, s.store.lease) && task.account in s.facts && Completes(s.store, task.account, task.version)
  }

  lemma ServedValue(s: System, w: string, task: Task, rest: seq<Task>)
    requires Shaped(s) && Serving(s, w, task) && Holds(s, w, s.fence) && s.workers[w].stage == Batch([task] + rest)
    ensures WorkEnabled(s, w, Value)
    ensures WorkNext(s, w, Value)
         == SetStage(Changed(s, Values(task.account)), w, Valued(task, s.facts[task.account], rest))
  {
    assert ([task] + rest)[1..] == rest;
  }

  lemma ServedPublish(s: System, w: string, task: Task, rest: seq<Task>)
    requires Shaped(s) && Serving(s, w, task) && s.workers[w].stage == Valued(task, s.facts[task.account], rest)
    ensures WorkEnabled(s, w, Publish)
    ensures WorkNext(s, w, Publish)
         == SetStage(Changed(s, Publishes(task.account, s.facts[task.account])), w, Published(task, rest))
  {}

  lemma ServedComplete(s: System, w: string, task: Task, rest: seq<Task>)
    requires Shaped(s) && Serving(s, w, task) && s.workers[w].stage == Published(task, rest)
    ensures WorkEnabled(s, w, Complete)
    ensures WorkNext(s, w, Complete) == SetStage(Changed(s, Clears(task)), w, Batch(rest))
    ensures task.account !in WorkNext(s, w, Complete).store.dirty
  {}

  /** A task served by the current holder with nothing in between: valued, published and cleared. */
  lemma UndisturbedTaskCompletes(s: System, w: string, task: Task, rest: seq<Task>)
    requires Shaped(s) && Serving(s, w, task) && Holds(s, w, s.fence) && s.workers[w].stage == Batch([task] + rest)
    ensures WorkEnabled(s, w, Value)
    ensures var valued := WorkNext(s, w, Value);
      && WorkEnabled(valued, w, Publish)
      && var published := WorkNext(valued, w, Publish);
      && WorkEnabled(published, w, Complete)
      && var t := WorkNext(published, w, Complete);
      && Shaped(t) && task.account in t.facts && Current(t, task.account) && task.account !in t.store.dirty
      && t.writes == s.writes + [s.fence.value.token]
  {
    ServedValue(s, w, task, rest);
    var valued := SetStage(Changed(s, Values(task.account)), w, Valued(task, s.facts[task.account], rest));
    assert Shaped(valued) && Serving(valued, w, task);
    ServedPublish(valued, w, task, rest);
    var published := SetStage(Changed(valued, Publishes(task.account, s.facts[task.account])), w, Published(task, rest));
    assert Shaped(published) && Serving(published, w, task);
    ServedComplete(published, w, task, rest);
  }

  // --- From a changed fact to its publication.

  /** A change is announced later, and the announcement, like a repeated one, marks the account afresh. */
  lemma FactCases(s: System, a: string, reason: string)
    requires a in s.facts && a in s.unannounced
    ensures var t := Next(s, Facts(ChangeFact(a)));
      t == s.(facts := s.facts[a := s.facts[a] + 1], unannounced := s.unannounced[a := s.unannounced[a] + 1])
    ensures s.unannounced[a] > 0 ==>
      Next(s, Facts(Announce(a, reason))) == Next(s, Facts(Remark(a, reason))).(unannounced := s.unannounced[a := s.unannounced[a] - 1])
    ensures var t := Next(s, Facts(Remark(a, reason)));
      t == s.(store := t.store) && t.store.lease == s.store.lease && t.store.tokens == s.store.tokens
      && a in t.store.dirty && t.store.dirty[a] == Version(s.store.sequence + 1, reason)
  {}

  /** A call that raises may have been applied or not. A commit leaves the snapshot it computed to be published,
      an applied one has valued the account; a publication that raises gives the task up. */
  lemma FailedCalls(s: System, w: string, task: Task, rest: seq<Task>, snapshot: nat, applied: bool)
    requires w in s.workers && task.account in s.facts
    ensures s.workers[w].stage == Batch([task] + rest) && Holds(s, w, s.fence) ==>
      Next(s, Work(w, FailCommit(applied)))
      == SetStage(if applied then s.(durable := s.durable[task.account := s.facts[task.account]], writes := s.writes + [s.fence.value.token]) else s,
                  w, Uncommitted(task, s.facts[task.account], rest))
    ensures (s.workers[w].stage == Valued(task, snapshot, rest) || s.workers[w].stage == Uncommitted(task, snapshot, rest)) ==>
      Next(s, Work(w, FailPublish(applied)))
      == SetStage(if applied && Holds(s, w, s.store.lease) then s.(published := s.published[task.account := snapshot]) else s, w, Batch(rest))
  {
    assert ([task] + rest)[1..] == rest;
  }

  /** What else happens to leases: one expires, a worker forgets its token or gives its lease up, and one whose
      activation is refused does both. */
  lemma LeaseEnds(s: System, w: string)
    requires w in s.workers
    ensures Next(s, Expire) == s.(store := s.store.(lease := None))
    ensures Next(s, Leases(w, LeaseStep.Forget)) == s.(workers := s.workers[w := IDLE])
    ensures s.workers[w].token.Some? ==>
      var own := Lease(w, s.workers[w].token.value);
      var given := s.(workers := s.workers[w := IDLE], store := if s.store.lease == Some(own) then s.store.(lease := None) else s.store);
      && Next(s, Leases(w, LeaseStep.Release)) == given
      && (s.fence.Some? && s.fence.value.token > own.token ==> Next(s, Leases(w, LeaseStep.Activate)) == given)
  {}

  /** An idle worker that finds the lease free serves any dirty account: it gets the lease and the fence, lists
      the account, values, publishes and clears it. */
  lemma IdleWorkerServes(s: System, w: string, task: Task)
    requires Inv(s) && w in s.workers && s.workers[w] == IDLE && s.store.lease == None
    requires task.account in s.facts && task.account in s.store.dirty && s.store.dirty[task.account] == task.version
    ensures var t := Run(Run(s, Beginning(w, task)), [Work(w, Value), Work(w, Publish), Work(w, Complete)]);
      && task.account in t.facts && t.facts == s.facts && Current(t, task.account) && task.account !in t.store.dirty
      && Holds(t, w, t.store.lease) && |t.writes| == |s.writes| + 1
  {
    BeginsServing(s, w, task);
    ServesInThreeSteps(Run(s, Beginning(w, task)), w, task);
  }

  lemma ServesInThreeSteps(s: System, w: string, task: Task)
    requires Shaped(s) && Serving(s, w, task) && Holds(s, w, s.fence) && s.workers[w].stage == Batch([task])
    ensures var t := Run(s, [Work(w, Value), Work(w, Publish), Work(w, Complete)]);
      && task.account in t.facts && t.facts == s.facts && Current(t, task.account) && task.account !in t.store.dirty
      && Holds(t, w, t.store.lease) && |t.writes| == |s.writes| + 1
  {
    assert [task] + [] == [task];
    UndisturbedTaskCompletes(s, w, task, []);
    ThreeSteps(s, Work(w, Value), Work(w, Publish), Work(w, Complete));
    ServesUnderLease(s, w);
    var a := WorkNext(s, w, Value);
    var b := WorkNext(a, w, Publish);
    assert Next(s, Work(w, Value)) == a && Next(a, Work(w, Publish)) == b && Next(b, Work(w, Complete)) == WorkNext(b, w, Complete);
  }

  function Beginning(w: string, task: Task): seq<Step> {
    [Leases(w, LeaseStep.Acquire), Leases(w, LeaseStep.Activate), Work(w, List([task]))]
  }

  lemma BeginsServing(s: System, w: string, task: Task)
    requires Inv(s) && w in s.workers && s.workers[w] == IDLE && s.store.lease == None
    requires task.account in s.facts && task.account in s.store.dirty && s.store.dirty[task.account] == task.version
    ensures var t := Run(s, Beginning(w, task));
      && Shaped(t) && Serving(t, w, task) && Holds(t, w, t.fence) && t.workers[w].stage == Batch([task])
      && t.facts == s.facts && t.writes == s.writes
  {
    ThreeSteps(s, Leases(w, LeaseStep.Acquire), Leases(w, LeaseStep.Activate), Work(w, List([task])));
    AcquiresAndActivates(s, w);
  }

  lemma ServesUnderLease(s: System, w: string)
    requires w in s.workers
    ensures var t := Next(Next(Next(s, Work(w, Value)), Work(w, Publish)), Work(w, Complete));
      t.facts == s.facts && t.store.lease == s.store.lease && w in t.workers && t.workers[w].token == s.workers[w].token
  {
    WorkKeepsLease(s, w, Value);
    var t := Next(s, Work(w, Value));
    WorkKeepsLease(t, w, Publish);
    WorkKeepsLease(Next(t, Work(w, Publish)), w, Complete);
  }

  lemma WorkKeepsLease(s: System, w: string, step: WorkStep)
    requires w in s.workers
    ensures var t := Next(s, Work(w, step));
      t.facts == s.facts && t.store.lease == s.store.lease && w in t.workers && t.workers[w].token == s.workers[w].token
  {
    if WorkEnabled(s, w, step) {
      var t := Changed(s, ChangeOf(s, w, step));
      assert t.facts == s.facts && t.store.lease == s.store.lease && t.workers == s.workers;
    }
  }

  lemma AcquiresAndActivates(s: System, w: string)
    requires TokensInv(s) && Shaped(s) && w in s.workers && s.workers[w] == IDLE && s.store.lease == None
    ensures var t := Next(Next(s, Leases(w, LeaseStep.Acquire)), Leases(w, LeaseStep.Activate));
      && Holds(t, w, t.store.lease) && Holds(t, w, t.fence) && t.workers[w].stage == Batch([])
      && t.facts == s.facts && t.store.dirty == s.store.dirty && t.writes == s.writes && Shaped(t)
  {}

  lemma ThreeSteps(s: System, a: Step, b: Step, c: Step)
    ensures Run(s, [a, b, c]) == Next(Next(Next(s, a), b), c)
  {
    assert [a, b, c][1..] == [b, c] && [b, c][1..] == [c] && [c][1..] == [];
    assert Run(Next(Next(s, a), b), [c]) == Next(Next(Next(s, a), b), c);
    assert Run(Next(s, a), [b, c]) == Run(Next(Next(s, a), b), [c]);
  }

  /** A worker is never stuck: whatever its stage, it may try to publish, also without success, complete or go
      on, and give its task up. */
  lemma AlwaysGoesOn(s: System, w: string)
    requires w in s.workers
    ensures var stage := s.workers[w].stage;
      && (stage.Valued? || stage.Uncommitted? ==>
            WorkEnabled(s, w, Publish) && WorkEnabled(s, w, FailPublish(true)) && WorkEnabled(s, w, FailPublish(false)))
      && (stage.Published? ==> WorkEnabled(s, w, Complete))
      && (!stage.Batch? || stage.todo != [] ==> WorkEnabled(s, w, Retain))
      && (stage.Batch? && stage.todo != [] && stage.todo[0].account in s.facts ==>
            WorkEnabled(s, w, Value) && WorkEnabled(s, w, FailCommit(true)) && WorkEnabled(s, w, FailCommit(false)))
  {}
}

/** The versioned dirty queues of the realtime stores, which differ in where versions come from and in
    whether clearing a key also deletes its version. */
module DirtyQueue {

  /** `shared`: one counter for all keys rather than one per key. `deletes`: a successful clear also
      deletes the version field, which for a per-key counter is the counter itself. */
  datatype Policy = Policy(shared: bool, deletes: bool)

  const CONTRACTS := Policy(true, true)        // realtime PnL contracts
  const ACCOUNT_FACTS := Policy(false, false)  // realtime PnL account facts
  const RISK := Policy(false, false)
  const CASH_VALUATION := Policy(true, true)

  /** `markers` holds the events already marked once; each may expire at any time. */
  datatype Queue = Queue(dirty: set<string>, versions: map<string, nat>, counter: nat, markers: set<string>)

  const EMPTY := Queue({}, map[], 0, {})

  /** `Processed`: another queue with the same markers has marked the event. */
  datatype Step =
    | Mark(key: string)
    | MarkOnce(key: string, event: string)
    | Bump
    | Complete(key: string, version: nat)
    | Processed(event: string)
    | ExpireMarker(event: string)

  function NextVersion(p: Policy, q: Queue, k: string): nat {
    if p.shared then q.counter + 1
    else if k in q.versions then q.versions[k] + 1 else 1
  }

  function Marked(p: Policy, q: Queue, k: string): Queue {
    var version := NextVersion(p, q, k);
    q.(dirty := q.dirty + {k}, versions := q.versions[k := version], counter := if p.shared then version else q.counter)
  }

  predicate Holds(q: Queue, k: string, version: nat) {
    k in q.versions && q.versions[k] == version
  }

  function Completed(p: Policy, q: Queue, k: string, version: nat): Queue {
    if Holds(q, k, version) then
      q.(dirty := q.dirty - {k}, versions := if p.deletes then q.versions - {k} else q.versions)
    else q
  }

  function Next(p: Policy, q: Queue, step: Step): Queue {
    match step
    case Mark(k) => Marked(p, q, k)
    case MarkOnce(k, e) => if e in q.markers then q else Marked(p, q, k).(markers := q.markers + {e})
    case Bump => if p.shared then q.(counter := q.counter + 1) else q
    case Complete(k, version) => Completed(p, q, k, version)
    case Processed(e) => q.(markers := q.markers + {e})
    case ExpireMarker(e) => q.(markers := q.markers - {e})
  }

  /** An event is remembered from the step that names it until its marker expires. */
  lemma RememberedIff(p: Policy, q: Queue, step: Step, event: string)
    ensures event in Next(p, q, step).markers <==>
      step == Processed(event) || (step.MarkOnce? && step.event == event) || (event in q.markers && step != ExpireMarker(event))
  {}

  /** A shared counter rises by one with each bump and each mark, and at no other step. */
  lemma CounterAfter(p: Policy, q: Queue, step: Step)
    ensures Next(p, q, step).counter == q.counter
      + if p.shared && (step.Bump? || step.Mark? || (step.MarkOnce? && step.event !in q.markers)) then 1 else 0
  {}

  function Run(p: Policy, steps: seq<Step>): Queue {
    if steps == [] then EMPTY else Next(p, Run(p, steps[..|steps| - 1]), steps[|steps| - 1])
  }

  /** The queue before step `i` of a run. */
  function At(p: Policy, steps: seq<Step>, i: nat): Queue
    requires i <= |steps|
  {
    Run(p, steps[..i])
  }

  predicate Marks(q: Queue, step: Step, k: string) {
    step == Mark(k) || (step.MarkOnce? && step.key == k && step.event !in q.markers)
  }

  predicate Clears(q: Queue, step: Step, k: string) {
    step.Complete? && step.key == k && Holds(q, k, step.version)
  }

  /** A reader saw a version before step `i`, a mark of the same key came at step `m`, and still the
      reader's completion at step `j` cleared the key. */
  predicate LosesMark(p: Policy, steps: seq<Step>, i: nat, m: nat, j: nat) {
    && i <= m < j < |steps| && steps[j].Complete?
    && Holds(At(p, steps, i), steps[j].key, steps[j].version)
    && Marks(At(p, steps, m), steps[m], steps[j].key)
    && Clears(At(p, steps, j), steps[j], steps[j].key)
  }

  lemma AtNext(p: Policy, steps: seq<Step>, i: nat)
    requires i < |steps|
    ensures At(p, steps, i + 1) == Next(p, At(p, steps, i), steps[i])
  {
    assert steps[..i + 1][..i] == steps[..i];
  }

  /** Versions never pass a shared counter; a key in the set has a version, and only such keys have one
      where clearing deletes it. */
  lemma {:induction false} RunInvariant(p: Policy, steps: seq<Step>)
    ensures var q := Run(p, steps);
      && (p.shared ==> forall k :: k in q.versions ==> q.versions[k] <= q.counter)
      && q.dirty <= q.versions.Keys && (p.deletes ==> q.dirty == q.versions.Keys)
  {
    if steps != [] {
      RunInvariant(p, steps[..|steps| - 1]);
    }
  }

  /** Once `k` has been marked after its version was `v`, it never has a version up to `v` again. */
  ghost predicate Past(p: Policy, q: Queue, k: string, v: nat) {
    && (p.shared ==> v < q.counter)
    && (!p.shared ==> k in q.versions)
    && (k in q.versions ==> v < q.versions[k])
  }

  lemma {:induction false} PastStays(p: Policy, steps: seq<Step>, k: string, v: nat, m: nat, j: nat)
    requires p.shared || !p.deletes
    requires m <= j <= |steps| && Past(p, At(p, steps, m), k, v)
    ensures Past(p, At(p, steps, j), k, v)
    decreases j - m
  {
    if m < j {
      AtNext(p, steps, m);
      PastStays(p, steps, k, v, m + 1, j);
    }
  }

  /** What was read only grows until the next mark of the key. */
  lemma {:induction false} NoOlder(p: Policy, steps: seq<Step>, k: string, v: nat, i: nat, m: nat)
    requires p.shared || !p.deletes
    requires i <= m <= |steps| && Holds(At(p, steps, i), k, v)
    ensures var q := At(p, steps, m);
      && (p.shared ==> v <= q.counter)
      && (!p.shared ==> k in q.versions && v <= q.versions[k])
    decreases m - i
  {
    RunInvariant(p, steps[..i]);
    if i < m {
      NoOlder(p, steps, k, v, i, m - 1);
      AtNext(p, steps, m - 1);
    }
  }

  /** A safe queue never loses a mark, whatever the interleaving of readers, marks, clears and expiries. */
  lemma NoLostMark(p: Policy, steps: seq<Step>, i: nat, m: nat, j: nat)
    requires p.shared || !p.deletes
    ensures !LosesMark(p, steps, i, m, j)
  {
    if LosesMark(p, steps, i, m, j) {
      var k, v := steps[j].key, steps[j].version;
      NoOlder(p, steps, k, v, i, m);
      AtNext(p, steps, m);
      PastStays(p, steps, k, v, m + 1, j);
      assert false;
    }
  }

  /** A per-key counter that is deleted with its key does: a second reader completes version 1, the key is
      marked again with version 1, and the first reader's completion clears that mark. */
  lemma DeletedCounterLosesMark()
    ensures LosesMark(Policy(false, true), [Mark("k"), Complete("k", 1), Mark("k"), Complete("k", 1)], 1, 2, 3)
  {
    var p, steps := Policy(false, true), [Mark("k"), Complete("k", 1), Mark("k"), Complete("k", 1)];
    AtNext(p, steps, 0);
    AtNext(p, steps, 1);
    AtNext(p, steps, 2);
  }

  /** No run loses a mark exactly when versions come from a shared counter or are never deleted. */
  lemma SafeIff(p: Policy)
    ensures (p.shared || !p.deletes) <==> forall steps, i, m, j :: !LosesMark(p, steps, i, m, j)
  {
    if p.shared || !p.deletes {
      forall steps, i, m, j ensures !LosesMark(p, steps, i, m, j) {
        NoLostMark(p, steps, i, m, j);
      }
    } else {
      DeletedCounterLosesMark();
    }
  }

  /** What each step of a run did to one key. */
  datatype Effect = Marking | Clearing | Neither

  function EffectOf(q: Queue, step: Step, k: string): Effect {
    if Marks(q, step, k) then Marking else if Clears(q, step, k) then Clearing else Neither
  }

  function Effects(p: Policy, steps: seq<Step>, k: string): seq<Effect> {
    seq(|steps|, i requires 0 <= i < |steps| => EffectOf(At(p, steps, i), steps[i], k))
  }

  /** Marked, and not cleared since. */
  ghost predicate Pending(effects: seq<Effect>) {
    exists i :: 0 <= i < |effects| && effects[i] == Marking && forall j :: i < j < |effects| ==> effects[j] != Clearing
  }

  /** A key is dirty exactly when some mark of it was not cleared since. */
  lemma {:induction false} DirtyIffPending(p: Policy, steps: seq<Step>, k: string)
    ensures k in Run(p, steps).dirty <==> Pending(Effects(p, steps, k))
  {
    if steps != [] {
      var front, last := steps[..|steps| - 1], steps[|steps| - 1];
      DirtyIffPending(p, front, k);
      EffectsAppend(p, steps, k);
      PendingAppend(Effects(p, front, k), EffectOf(Run(p, front), last, k));
    }
  }

  lemma EffectsAppend(p: Policy, steps: seq<Step>, k: string)
    requires steps != []
    ensures var front := steps[..|steps| - 1];
      Effects(p, steps, k) == Effects(p, front, k) + [EffectOf(Run(p, front), steps[|steps| - 1], k)]
  {
    var front := steps[..|steps| - 1];
    forall i | 0 <= i < |steps| ensures At(p, steps, i) == if i < |front| then At(p, front, i) else Run(p, front) {
      assert steps[..i] == front[..i];
    }
  }

  lemma PendingAppend(effects: seq<Effect>, last: Effect)
    ensures Pending(effects + [last]) <==> last == Marking || (last != Clearing && Pending(effects))
  {
    var all := effects + [last];
    assert all[|effects|] == last;
    if last != Clearing && Pending(effects) {
      var i :| 0 <= i < |effects| && effects[i] == Marking && forall j :: i < j < |effects| ==> effects[j] != Clearing;
      assert all[i] == Marking;
    }
    if last == Neither && Pending(all) {
      var i :| 0 <= i < |all| && all[i] == Marking && forall j :: i < j < |all| ==> all[j] != Clearing;
      assert effects[i] == Marking;
      assert forall j :: i < j < |effects| ==> all[j] == effects[j];
    }
  }

  lemma {:induction false} MarkerStays(p: Policy, steps: seq<Step>, i: nat, j: nat)
    requires i < j <= |steps| && steps[i].MarkOnce?
    requires forall m :: i < m < j ==> steps[m] != ExpireMarker(steps[i].event)
    ensures steps[i].event in At(p, steps, j).markers
  {
    AtNext(p, steps, j - 1);
    if i + 1 < j {
      MarkerStays(p, steps, i, j - 1);
    }
  }

  /** An event redelivered before its marker expires changes nothing, whatever happened in between. */
  lemma RedeliveryIsIdempotent(p: Policy, steps: seq<Step>, i: nat, j: nat)
    requires i < j < |steps| && steps[i].MarkOnce? && steps[j] == steps[i]
    requires forall m :: i < m < j ==> steps[m] != ExpireMarker(steps[i].event)
    ensures At(p, steps, j + 1) == At(p, steps, j)
  {
    MarkerStays(p, steps, i, j);
    AtNext(p, steps, j);
  }
}

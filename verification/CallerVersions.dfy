/** The dirty queues of positions and accounts, whose versions come from the caller of each cycle: a mark
    of many keys writes one version for all. */
module CallerVersions {

  datatype Queue<K> = Queue(dirty: set<K>, versions: map<K, string>)

  datatype Step<K> =
    | Mark(keys: set<K>, version: string)
    | Complete(key: K, expected: string)

  predicate Holds<K(==)>(q: Queue<K>, k: K, version: string) {
    k in q.versions && q.versions[k] == version
  }

  function Next<K>(q: Queue<K>, step: Step<K>): Queue<K> {
    match step
    case Mark(keys, version) => Queue(q.dirty + keys, q.versions + map k | k in keys :: version)
    case Complete(k, expected) =>
      if Holds(q, k, expected) then Queue(q.dirty - {k}, q.versions - {k}) else q
  }

  function Run<K>(steps: seq<Step<K>>): Queue<K> {
    if steps == [] then Queue({}, map[]) else Next(Run(steps[..|steps| - 1]), steps[|steps| - 1])
  }

  predicate Marks<K(==)>(step: Step<K>, k: K) {
    step.Mark? && k in step.keys
  }

  /** A completion clears its key exactly if the version it names is the one in force; apart from that a key
      stays dirty, under the version of its last mark. */
  lemma AfterStep<K>(q: Queue<K>, step: Step<K>, k: K, version: string)
    ensures var clears := step.Complete? && step.key == k && k in q.versions && q.versions[k] == step.expected;
      && (k in Next(q, step).dirty <==> Marks(step, k) || (k in q.dirty && !clears))
      && (Holds(Next(q, step), k, version) <==>
            if Marks(step, k) then step.version == version else Holds(q, k, version) && !clears)
  {}

  /** A key is dirty exactly while it has a version. */
  lemma {:induction false} DirtyIffVersioned<K>(steps: seq<Step<K>>)
    ensures Run(steps).dirty == Run(steps).versions.Keys
  {
    if steps != [] {
      DirtyIffVersioned(steps[..|steps| - 1]);
    }
  }

  /** A reader saw a version before step `i`, the key was marked again at step `m`, and still the reader's
      completion at step `j` cleared it. */
  predicate LosesMark<K(==)>(steps: seq<Step<K>>, i: nat, m: nat, j: nat) {
    && i <= m < j < |steps| && steps[j].Complete?
    && Holds(Run(steps[..i]), steps[j].key, steps[j].expected)
    && Marks(steps[m], steps[j].key)
    && Holds(Run(steps[..j]), steps[j].key, steps[j].expected)
  }

  /** No key is marked twice with one version. */
  ghost predicate FreshVersions<K(!new)>(steps: seq<Step<K>>) {
    forall i, j, k :: 0 <= i < j < |steps| && Marks(steps[i], k) && Marks(steps[j], k) ==> steps[i].version != steps[j].version
  }

  /** A version in force was written by the last mark of its key. */
  lemma {:induction false} VersionSource<K>(steps: seq<Step<K>>, j: nat, k: K, version: string) returns (n: nat)
    requires j <= |steps| && Holds(Run(steps[..j]), k, version)
    ensures n < j && Marks(steps[n], k) && steps[n].version == version
    ensures forall x :: n < x < j ==> !Marks(steps[x], k)
  {
    assert steps[..j][..j - 1] == steps[..j - 1];
    if Marks(steps[j - 1], k) {
      n := j - 1;
    } else {
      n := VersionSource(steps, j - 1, k, version);
    }
  }

  /** With fresh versions no run loses a mark. */
  lemma NoLostMark<K(!new)>(steps: seq<Step<K>>, i: nat, m: nat, j: nat)
    requires FreshVersions(steps)
    ensures !LosesMark(steps, i, m, j)
  {
    if LosesMark(steps, i, m, j) {
      var k, version := steps[j].key, steps[j].expected;
      var early := VersionSource(steps, i, k, version);
      var late := VersionSource(steps, j, k, version);
      assert false;
    }
  }

  /** The marks of a run, in order. */
  function MarksOf<K>(steps: seq<Step<K>>): seq<Step<K>> {
    if steps == [] then [] else
      var front, last := MarksOf(steps[..|steps| - 1]), steps[|steps| - 1];
      if last.Mark? then front + [last] else front
  }

  lemma {:induction false} MarksOfConcat<K>(a: seq<Step<K>>, b: seq<Step<K>>)
    ensures MarksOf(a + b) == MarksOf(a) + MarksOf(b)
  {
    if b == [] {
      assert a + b == a;
    } else {
      MarksOfConcat(a, b[..|b| - 1]);
      assert (a + b)[..|a + b| - 1] == a + b[..|b| - 1];
    }
  }

  lemma {:induction false} MarksOfMarks<K>(marks: seq<Step<K>>)
    requires forall i :: 0 <= i < |marks| ==> marks[i].Mark?
    ensures MarksOf(marks) == marks
  {
    if marks != [] {
      MarksOfMarks(marks[..|marks| - 1]);
      assert marks == marks[..|marks| - 1] + [marks[|marks| - 1]];
    }
  }

  /** Fresh marks make the whole run fresh. */
  lemma {:induction false} FreshRun<K(!new)>(steps: seq<Step<K>>)
    requires FreshVersions(MarksOf(steps))
    ensures FreshVersions(steps)
  {
    if steps != [] {
      var front, last := steps[..|steps| - 1], steps[|steps| - 1];
      var marks := MarksOf(front);
      assert MarksOf(steps)[..|marks|] == marks;
      FreshPrefix(MarksOf(steps), |marks|);
      FreshRun(front);
      if last.Mark? {
        forall i, k | 0 <= i < |front| && Marks(front[i], k) && k in last.keys ensures front[i].version != last.version {
          MarkKept(front, i);
          var x :| 0 <= x < |marks| && marks[x] == front[i];
          assert MarksOf(steps)[x] == front[i] && MarksOf(steps)[|marks|] == last;
        }
      }
    }
  }

  lemma FreshPrefix<K(!new)>(steps: seq<Step<K>>, n: nat)
    requires FreshVersions(steps) && n <= |steps|
    ensures FreshVersions(steps[..n])
  {
    var p := steps[..n];
    forall i, j, k | 0 <= i < j < |p| && Marks(p[i], k) && Marks(p[j], k) ensures p[i].version != p[j].version {
      assert p[i] == steps[i] && p[j] == steps[j];
    }
  }

  lemma {:induction false} MarkKept<K>(steps: seq<Step<K>>, i: nat)
    requires i < |steps| && steps[i].Mark?
    ensures steps[i] in MarksOf(steps)
  {
    if i < |steps| - 1 {
      MarkKept(steps[..|steps| - 1], i);
    }
  }

  /** A repeated version does lose a mark: read after its first use, completed after its second. */
  lemma ReusedVersionLoses<K>(marks: seq<Step<K>>, a: nat, b: nat, k: K)
    requires forall i :: 0 <= i < |marks| ==> marks[i].Mark?
    requires a < b < |marks| && Marks(marks[a], k) && Marks(marks[b], k) && marks[a].version == marks[b].version
    ensures var steps := marks[..b + 1] + [Complete(k, marks[b].version)] + marks[b + 1..];
      MarksOf(steps) == marks && LosesMark(steps, a + 1, b, b + 1)
  {
    var done := Complete(k, marks[b].version);
    var steps := marks[..b + 1] + [done] + marks[b + 1..];
    MarksOfConcat(marks[..b + 1] + [done], marks[b + 1..]);
    MarksOfConcat(marks[..b + 1], [done]);
    assert [done][..0] == [];
    MarksOfMarks(marks[..b + 1]);
    MarksOfMarks(marks[b + 1..]);
    assert marks == marks[..b + 1] + marks[b + 1..];
    assert steps[..a + 1][..a] == marks[..a] && steps[..a + 1][a] == marks[a];
    assert steps[..b + 1][..b] == marks[..b] && steps[..b + 1][b] == marks[b];
    HeldOnceMarked(steps, a, k);
    HeldOnceMarked(steps, b, k);
  }

  lemma HeldOnceMarked<K>(steps: seq<Step<K>>, n: nat, k: K)
    requires n < |steps| && Marks(steps[n], k)
    ensures Holds(Run(steps[..n + 1]), k, steps[n].version)
  {
    assert steps[..n + 1][..n] == steps[..n];
  }

  /** Whatever is read and completed between them, a sequence of marks is never lost exactly when no key
      gets one version twice. */
  lemma FreshIff<K(!new)>(marks: seq<Step<K>>)
    requires forall i :: 0 <= i < |marks| ==> marks[i].Mark?
    ensures FreshVersions(marks) <==>
      forall steps: seq<Step<K>>, i, m, j :: MarksOf(steps) == marks ==> !LosesMark(steps, i, m, j)
  {
    if FreshVersions(marks) {
      forall steps: seq<Step<K>>, i, m, j | MarksOf(steps) == marks ensures !LosesMark(steps, i, m, j) {
        FreshRun(steps);
        NoLostMark(steps, i, m, j);
      }
    } else {
      var a, b, k :| 0 <= a < b < |marks| && Marks(marks[a], k) && Marks(marks[b], k) && marks[a].version == marks[b].version;
      ReusedVersionLoses(marks, a, b, k);
    }
  }
}

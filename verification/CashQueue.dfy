/** The dirty accounts of the cash valuation as a versioned dirty queue: one counter for all accounts, whose
    versions carry the reason of the mark as well, and which a clear deletes. */
module CashQueue {
  import opened ValuationStore
  import opened Options
  import Q = DirtyQueue

  datatype Step = Mark(account: string, reason: string) | Complete(account: string, version: Version)

  const EMPTY := Store(map[], 0, None, 0)

  function Next(s: Store, step: Step): Store {
    match step
    case Mark(a, reason) => MarkDirty(s, a, reason)
    case Complete(a, version) => CompleteDirty(s, a, version)
  }

  function Run(steps: seq<Step>): Store {
    if steps == [] then EMPTY else Next(Run(steps[..|steps| - 1]), steps[|steps| - 1])
  }

  function Queue(s: Store): Q.Queue {
    Q.Queue(s.dirty.Keys, map a | a in s.dirty :: s.dirty[a].number, s.sequence, {})
  }

  /** A completion refused for its reason alone has no counterpart: number 0 is never given. */
  function QueueStep(s: Store, step: Step): Q.Step {
    match step
    case Mark(a, _) => Q.Mark(a)
    case Complete(a, version) => Q.Complete(a, if Completes(s, a, version) then version.number else 0)
  }

  function QueueSteps(steps: seq<Step>): seq<Q.Step> {
    if steps == [] then [] else
      QueueSteps(steps[..|steps| - 1]) + [QueueStep(Run(steps[..|steps| - 1]), steps[|steps| - 1])]
  }

  ghost predicate Numbered(s: Store) {
    forall a :: a in s.dirty ==> 1 <= s.dirty[a].number <= s.sequence
  }

  lemma StepRefines(s: Store, step: Step)
    requires Numbered(s)
    ensures Numbered(Next(s, step))
    ensures Queue(Next(s, step)) == Q.Next(Q.CASH_VALUATION, Queue(s), QueueStep(s, step))
  {}

  lemma {:induction false} QueueRefines(steps: seq<Step>)
    ensures Numbered(Run(steps)) && Queue(Run(steps)) == Q.Run(Q.CASH_VALUATION, QueueSteps(steps))
    ensures |QueueSteps(steps)| == |steps|
  {
    if steps != [] {
      var front := steps[..|steps| - 1];
      QueueRefines(front);
      StepRefines(Run(front), steps[|steps| - 1]);
      assert QueueSteps(steps)[..|steps| - 1] == QueueSteps(front);
    }
  }

  lemma {:induction false} QueueStepsPrefix(steps: seq<Step>, i: nat)
    requires i <= |steps|
    ensures |QueueSteps(steps)| == |steps| && QueueSteps(steps)[..i] == QueueSteps(steps[..i])
    ensures i < |steps| ==> QueueSteps(steps)[i] == QueueStep(Run(steps[..i]), steps[i])
  {
    QueueRefines(steps);
    if i == |steps| {
      assert steps[..i] == steps;
    } else {
      var front := steps[..|steps| - 1];
      QueueStepsPrefix(front, i);
      assert front[..i] == steps[..i];
    }
  }

  /** A completion with the version read succeeds only if the account was not marked since. */
  lemma NoLostMark(steps: seq<Step>, i: nat, m: nat, j: nat)
    requires i <= m < j < |steps| && steps[m].Mark? && steps[j].Complete? && steps[m].account == steps[j].account
    requires Completes(Run(steps[..i]), steps[j].account, steps[j].version)
    ensures !Completes(Run(steps[..j]), steps[j].account, steps[j].version)
  {
    var p, steps' := Q.CASH_VALUATION, QueueSteps(steps);
    var a, version := steps[j].account, steps[j].version;
    forall n | n == i || n == m || n == j
      ensures n < |steps'| && Q.At(p, steps', n) == Queue(Run(steps[..n])) && steps'[n] == QueueStep(Run(steps[..n]), steps[n])
    {
      QueueStepsPrefix(steps, n);
      QueueRefines(steps[..n]);
    }
    if Completes(Run(steps[..j]), a, version) {
      Q.NoLostMark(p, steps', i, m, j);
      assert false;
    }
  }
}

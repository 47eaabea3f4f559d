/** A lease key in Redis: set only when absent, deleted only by its holder, and lost when it expires. */
module Leases {
  import opened Options

  type Lease = Option<string>

  datatype Step = Acquire(owner: string) | Release(owner: string) | Expire

  predicate Acquires(l: Lease, owner: string) {
    l.None?
  }

  predicate Releases(l: Lease, owner: string) {
    l == Some(owner)
  }

  function Next(l: Lease, step: Step): Lease {
    match step
    case Acquire(owner) => if Acquires(l, owner) then Some(owner) else l
    case Release(owner) => if Releases(l, owner) then None else l
    case Expire => None
  }

  /** Only a free lease is taken, only its holder gives it up, and both then succeed. */
  lemma Cases(l: Lease, step: Step)
    ensures var t := Next(l, step);
      && (step == Expire ==> t == None)
      && (step.Acquire? ==> (Acquires(l, step.owner) <==> l == None) && t == (if l == None then Some(step.owner) else l))
      && (step.Release? ==> (Releases(l, step.owner) <==> l == Some(step.owner)) && t == (if l == Some(step.owner) then None else l))
  {}

  function Run(l: Lease, steps: seq<Step>): Lease {
    if steps == [] then l else Next(Run(l, steps[..|steps| - 1]), steps[|steps| - 1])
  }

  /** One owner at a time: between a successful acquisition and the next expiry or release by its owner the
      owner holds the lease and nobody acquires it. */
  lemma {:induction false} HeldUntilGivenUp(l: Lease, steps: seq<Step>, i: nat, j: nat)
    requires i < j <= |steps| && steps[i].Acquire? && Acquires(Run(l, steps[..i]), steps[i].owner)
    requires forall n :: i < n < j ==> steps[n] != Expire && steps[n] != Release(steps[i].owner)
    ensures Run(l, steps[..j]) == Some(steps[i].owner)
    ensures forall other :: !Acquires(Run(l, steps[..j]), other)
  {
    assert steps[..j][..j - 1] == steps[..j - 1];
    if i + 1 < j {
      HeldUntilGivenUp(l, steps, i, j - 1);
    }
  }

  /** Given up by its holder, or expired, it is free for the next to come. */
  lemma {:induction false} FreeAgain(l: Lease, steps: seq<Step>, i: nat, j: nat, owner: string)
    requires i < j <= |steps| && (steps[i] == Expire || (steps[i].Release? && Run(l, steps[..i]) == Some(steps[i].owner)))
    requires forall n :: i < n < j ==> !steps[n].Acquire?
    ensures Run(l, steps[..j]) == None && Next(Run(l, steps[..j]), Acquire(owner)) == Some(owner)
  {
    assert steps[..j][..j - 1] == steps[..j - 1];
    if i + 1 < j {
      FreeAgain(l, steps, i, j - 1, owner);
    }
  }
}

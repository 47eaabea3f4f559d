/** One gateway's handling of one message as a straight line of suspended calls with an exception handler,
    proved to take the steps of GatewayConsumer. */
module RealtimeConsumer {
  import opened Options
  import opened GatewayConsumer

  /** What the rest of the world does to one suspended call: who holds the lease when it takes effect, whether
      the consumer is asked to stop before that, and how it ends. */
  datatype Moment = Moment(holder: Option<string>, stops: bool, outcome: Outcome)

  /** The steps of the system at one suspension point of gateway `g`. */
  function PointSteps(g: string, moment: Moment): seq<Step> {
    [MoveLease(moment.holder)] + (if moment.stops then [Stop(g)] else []) + [Advance(g, moment.outcome)]
  }

  /** What surrounds the call itself. */
  function Disturbed(s: System, g: string, moment: Moment): System {
    var moved := s.(lease := moment.holder);
    if moment.stops && g in s.gateways then Put(moved, g, s.gateways[g].(running := false)) else moved
  }

  function Elapse(s: System, g: string, moment: Moment): System
    requires Enabled(s, Advance(g, moment.outcome))
  {
    Next(Disturbed(s, g, moment), Advance(g, moment.outcome))
  }

  predicate Resting(s: System, g: string) {
    g !in s.gateways || s.gateways[g].at == Stopped || s.gateways[g].at == Polling || s.gateways[g].at == Reading
  }

  /** Gateway `g` runs until it has dealt with its message. */
  function Play(s: System, g: string, moments: seq<Moment>): System
    decreases |moments|
  {
    if moments == [] || Resting(s, g) then s else Play(Elapse(s, g, moments[0]), g, moments[1..])
  }

  /** The same as steps of the whole system. */
  function Steps(s: System, g: string, moments: seq<Moment>): seq<Step>
    decreases |moments|
  {
    if moments == [] || Resting(s, g) then [] else PointSteps(g, moments[0]) + Steps(Elapse(s, g, moments[0]), g, moments[1..])
  }

  /** So what is proved of every run holds of every handled message. */
  lemma {:induction false} PlayIsRun(s: System, g: string, moments: seq<Moment>)
    ensures ValidRun(s, Steps(s, g, moments)) && Run(s, Steps(s, g, moments)) == Play(s, g, moments)
    decreases |moments|
  {
    if moments != [] && !Resting(s, g) {
      var t := Elapse(s, g, moments[0]);
      PlayIsRun(t, g, moments[1..]);
      ElapseIsRun(s, g, moments[0]);
      RunConcat(s, PointSteps(g, moments[0]), Steps(t, g, moments[1..]));
    }
  }

  lemma ElapseIsRun(s: System, g: string, moment: Moment)
    requires Enabled(s, Advance(g, moment.outcome))
    ensures ValidRun(s, PointSteps(g, moment)) && Run(s, PointSteps(g, moment)) == Elapse(s, g, moment)
  {
    var move, advance := MoveLease(moment.holder), Advance(g, moment.outcome);
    var moved, t := Next(s, move), Elapse(s, g, moment);
    if moment.stops {
      ThreeSteps(s, [move, Stop(g), advance], moved, Next(moved, Stop(g)), t);
      assert PointSteps(g, moment) == [move, Stop(g), advance];
    } else {
      TwoSteps(s, [move, advance], moved, t);
      assert PointSteps(g, moment) == [move, advance];
    }
  }

  /** The gateway alone, at a point. */
  predicate Only(s: System, g: string, point: Point, running: bool) {
    s.gateways == map[g := Gateway(point, [], running)]
  }

  /** The flag when a call takes effect, and after it: cleared on request, and on finding the lease lost. */
  function Runs(running: bool, moment: Moment): bool {
    running && !moment.stops
  }

  function RunsOn(running: bool, g: string, moment: Moment): bool {
    Runs(running, moment) && (moment.outcome == Raises || moment.holder == Some(g))
  }

  /** A call that elapses has its effect unless it raises before it, and leads to one point. */
  lemma ElapseParts(s: System, g: string, point: Point, running: bool, moment: Moment)
    requires Only(s, g, point, running) && !Resting(s, g)
    ensures var d := Disturbed(s, g, moment);
      && d == s.(lease := moment.holder, gateways := map[g := Gateway(point, [], Runs(running, moment))])
      && Effect(d, g).gateways == d.gateways
      && Elapse(s, g, moment) == (if moment.outcome == Raises then d else Effect(d, g)).(gateways := map[g := Led(d, g, moment.outcome)])
  {
    var d := Disturbed(s, g, moment);
    EffectMovesNobody(d, g);
    assert d.gateways[g := Led(d, g, moment.outcome)] == map[g := Led(d, g, moment.outcome)];
  }

  /** What the checks do: they change nothing but the point and the flag, and an exception, of the check or of
      the callback after it, leaves the point at the handler. */
  lemma ElapseChecking(s: System, g: string, point: Point, running: bool, moment: Moment)
    requires Only(s, g, point, running) && (point.Entering? || point.Checking? || point.Failed?)
    ensures var owned, left := moment.holder == Some(g), RunsOn(running, g, moment);
      Elapse(s, g, moment) == Put(s.(lease := moment.holder), g,
        if moment.outcome != Done then (if point.Checking? then Gateway(Failed(point.m), [], left) else BrokenOff(left))
        else if !owned then STOPPED
        else Gateway(if point.Checking? then Routing(point.m)
                     else if point.Failed? then Counting(point.m)
                     else if point.body then Checking(point.m) else NoBody(point.m), [], left))
  {
    ElapseParts(s, g, point, running, moment);
  }

  /** The calls that only record something: their effect unless they raise before it, and the point they
      lead to. */
  lemma ElapseRecording(s: System, g: string, point: Point, running: bool, moment: Moment)
    requires Only(s, g, point, running) && (point.Routing? || point.Burying?)
    ensures var moved, m, left := s.(lease := moment.holder), point.m, Runs(running, moment);
      Elapse(s, g, moment) == Put(
        if moment.outcome == Raises then moved
        else Log(moved, if point.Routing? then Routed(g, m) else DeadLettered(g, m)), g,
        if moment.outcome == Done then Gateway(if point.Routing? then Clearing(m) else ClearingDead(m), [], left)
        else if point.Routing? then Gateway(Failed(m), [], left) else BrokenOff(left))
  {
    ElapseParts(s, g, point, running, moment);
  }

  lemma ElapseClearing(s: System, g: string, point: Point, running: bool, moment: Moment)
    requires Only(s, g, point, running) && (point.Clearing? || point.ClearingDead?)
    ensures var t, m, left := Elapse(s, g, moment), point.m, Runs(running, moment);
      && t == s.(lease := moment.holder, gateways := t.gateways, failures := t.failures, log := t.log)
      && t.failures == (if moment.outcome == Raises then s.failures else s.failures - {m})
      && t.log == s.log + (if moment.outcome == Raises then [] else [Cleared(m)])
      && t.gateways == map[g :=
        if moment.outcome == Done then Gateway(if point.Clearing? then Acking(m) else AckingDead(m), [], left)
        else if point.Clearing? then Gateway(Failed(m), [], left) else BrokenOff(left)]
  {
    ElapseParts(s, g, point, running, moment);
  }

  lemma ElapseCounting(s: System, g: string, m: string, running: bool, moment: Moment)
    requires Only(s, g, Counting(m), running)
    ensures var t, left, count := Elapse(s, g, moment), Runs(running, moment), Count(s.failures, m) + 1;
      && t == s.(lease := moment.holder, gateways := t.gateways, failures := t.failures, log := t.log)
      && t.failures == (if moment.outcome == Raises then s.failures else s.failures[m := count])
      && t.log == s.log + (if moment.outcome == Raises then [] else [Failure(g, m)])
      && t.gateways == map[g :=
        if moment.outcome != Done || count < MAX_FAILURES then BrokenOff(left) else Gateway(Burying(m), [], left)]
  {
    ElapseParts(s, g, Counting(m), running, moment);
  }

  /** Where an acknowledging call leads. */
  function Acknowledged(point: Point, g: string, running: bool, moment: Moment): Gateway
    requires Acknowledging(point)
  {
    if moment.outcome != Done && point.Acking? then Gateway(Failed(point.m), [], RunsOn(running, g, moment))
    else if moment.outcome == Done && moment.holder != Some(g) then STOPPED
    else BrokenOff(RunsOn(running, g, moment))
  }

  /** What it does: nothing if it raises before its effect or without the lease. */
  lemma ElapseAcknowledging(s: System, g: string, point: Point, running: bool, moment: Moment)
    requires Only(s, g, point, running) && Acknowledging(point)
    ensures var t, m, owned := Elapse(s, g, moment), point.m, moment.outcome != Raises && moment.holder == Some(g);
      && t.lease == moment.holder && t.gateways == map[g := Acknowledged(point, g, running, moment)]
      && t.seen == s.seen && t.failures == s.failures
      && t.pending == (if owned then s.pending - {m} else s.pending)
      && t.log == s.log + (if owned && point.NoBody? then [Bodiless(g, m)] else [])
                        + (if owned && m in s.pending then [Acked(g, m, moment.holder)] else [])
  {
    var d := Disturbed(s, g, moment);
    ElapseParts(s, g, point, running, moment);
    AcknowledgingEffect(d, g, point);
    AcknowledgingMove(d, g, point, Runs(running, moment), moment);
  }

  lemma AcknowledgingMove(d: System, g: string, point: Point, running: bool, moment: Moment)
    requires Only(d, g, point, running) && Acknowledging(point) && d.lease == moment.holder && (running ==> !moment.stops)
    ensures Led(d, g, moment.outcome) == Acknowledged(point, g, running, moment)
  {}

  lemma AcknowledgingEffect(d: System, g: string, point: Point)
    requires g in d.gateways && d.gateways[g].at == point && Acknowledging(point)
    ensures var t, m, owned := Effect(d, g), point.m, Owns(d, g);
      && t == d.(pending := t.pending, log := t.log)
      && t.pending == (if owned then d.pending - {m} else d.pending)
      && t.log == d.log + (if owned && point.NoBody? then [Bodiless(g, m)] else [])
                        + (if owned && m in d.pending then [Acked(g, m, d.lease)] else [])
  {
    assert point.m in d.pending || d.pending - {point.m} == d.pending;
  }

  /** The longest way through: ten suspension points. */
  const LONGEST := 10

  class RealtimeEventConsumer {
    const owner: string
    var running: bool
    /** The shared state in Redis. */
    var lease: Option<string>
    var seen: set<string>
    var pending: set<string>
    var failures: map<string, nat>
    /** What has happened so far. */
    ghost var log: seq<Record>

    constructor (owner: string)
      ensures this.owner == owner && running && At(Polling) == System(None, map[owner := BROKEN_OFF], {}, {}, map[], [])
    {
      this.owner, running := owner, true;
      lease, seen, pending, failures, log := None, {}, {}, map[], [];
    }

    /** The system with this gateway at a point, and no other in sight. */
    ghost function At(point: Point): System
      reads this
    {
      System(lease, map[owner := Gateway(point, [], running)], seen, pending, failures, log)
    }

    /** Between two messages. */
    function Between(): Point
      reads this`running
    {
      if running then Polling else Stopped
    }

    /** Losing the lease clears the flag first and then calls back; an exception of the check itself leaves
        the flag, one of the callback finds it cleared. */
    method EnsureOwner(ghost point: Point, moment: Moment) returns (owned: bool, raised: bool)
      requires point.Entering? || point.Checking? || point.Failed?
      modifies this`lease, this`running
      ensures raised == (moment.outcome != Done) && (!raised ==> owned == (lease == Some(owner)))
      ensures running == RunsOn(old(running), owner, moment)
      ensures Elapse(old(At(point)), owner, moment) == At(
        if raised then (if point.Checking? then Failed(point.m) else Between())
        else if !owned then Between()
        else if point.Checking? then Routing(point.m)
        else if point.Failed? then Counting(point.m)
        else if point.body then Checking(point.m) else NoBody(point.m))
    {
      ElapseChecking(At(point), owner, point, running, moment);
      Interrupted(moment);
      if moment.outcome == Raises {
        return false, true;
      }
      owned, raised := lease == Some(owner), moment.outcome != Done;
      if !owned {
        running := false;
      }
    }

    /** What happens around a suspended call. */
    method Interrupted(moment: Moment)
      modifies this`lease, this`running
      ensures lease == moment.holder && running == Runs(old(running), moment)
    {
      lease := moment.holder;
      if moment.stops {
        running := false;
      }
    }

    method AcknowledgeMessage(ghost point: Point, m: string, moment: Moment) returns (owned: bool, raised: bool)
      requires point == Acking(m) || point == AckingDead(m) || point == NoBody(m)
      modifies this`lease, this`running, this`pending, this`log
      ensures raised == (moment.outcome != Done) && (!raised ==> owned == (lease == Some(owner)))
      ensures running == RunsOn(old(running), owner, moment)
      ensures Elapse(old(At(point)), owner, moment) == At(
        if raised && point.Acking? then Failed(m) else Between())
    {
      ElapseAcknowledging(At(point), owner, point, running, moment);
      Interrupted(moment);
      if moment.outcome == Raises {
        return false, true;
      }
      owned, raised := lease == Some(owner), moment.outcome != Done;
      if owned {
        if point.NoBody? {
          log := log + [Bodiless(owner, m)];
        }
        if m in pending {
          pending := pending - {m};
          log := log + [Acked(owner, m, lease)];
        }
      } else {
        running := false;
      }
    }

    method Route(m: string, moment: Moment) returns (raised: bool)
      modifies this`lease, this`running, this`log
      ensures Elapse(old(At(Routing(m))), owner, moment) == At(if raised then Failed(m) else Clearing(m))
    {
      ElapseRecording(At(Routing(m)), owner, Routing(m), running, moment);
      Interrupted(moment);
      raised := moment.outcome != Done;
      if moment.outcome != Raises {
        log := log + [Routed(owner, m)];
      }
    }

    method ClearFailure(ghost point: Point, m: string, moment: Moment) returns (raised: bool)
      requires point == Clearing(m) || point == ClearingDead(m)
      modifies this`lease, this`running, this`failures, this`log
      ensures Elapse(old(At(point)), owner, moment) == At(
        if point.Clearing? then (if raised then Failed(m) else Acking(m)) else if raised then Between() else AckingDead(m))
    {
      ElapseClearing(At(point), owner, point, running, moment);
      Interrupted(moment);
      if moment.outcome == Raises {
        return true;
      }
      failures := failures - {m};
      log := log + [Cleared(m)];
      raised := moment.outcome != Done;
    }

    method IncrementFailure(m: string, moment: Moment) returns (count: nat, raised: bool)
      modifies this`lease, this`running, this`failures, this`log
      ensures Elapse(old(At(Counting(m))), owner, moment)
           == At(if raised || count < MAX_FAILURES then Between() else Burying(m))
    {
      ElapseCounting(At(Counting(m)), owner, m, running, moment);
      Interrupted(moment);
      count := Count(failures, m) + 1;
      if moment.outcome == Raises {
        return count, true;
      }
      failures := failures[m := count];
      log := log + [Failure(owner, m)];
      raised := moment.outcome != Done;
    }

    method PublishDeadLetter(m: string, moment: Moment) returns (raised: bool)
      modifies this`lease, this`running, this`log
      ensures Elapse(old(At(Burying(m))), owner, moment) == At(if raised then Between() else ClearingDead(m))
    {
      ElapseRecording(At(Burying(m)), owner, Burying(m), running, moment);
      Interrupted(moment);
      raised := moment.outcome != Done;
      if moment.outcome != Raises {
        log := log + [DeadLettered(owner, m)];
      }
    }

    /** The try block: check, route, clear, acknowledge. `used` counts the suspension points passed. */
    method TryRoute(m: string, moments: seq<Moment>) returns (failed: bool, used: nat)
      requires |moments| >= 4
      modifies this`lease, this`running, this`pending, this`failures, this`log
      ensures used <= 4
      ensures Play(old(At(Checking(m))), owner, moments)
           == Play(At(if failed then Failed(m) else Between()), owner, moments[used..])
    {
      ghost var goal := Play(At(Checking(m)), owner, moments);
      var owned, raised := EnsureOwner(Checking(m), moments[0]);
      assert goal == Play(At(if raised then Failed(m) else if owned then Routing(m) else Between()), owner, moments[1..]);
      if raised || !owned {
        return raised, 1;
      }
      raised := Route(m, moments[1]);
      assert moments[1..][1..] == moments[2..];
      assert goal == Play(At(if raised then Failed(m) else Clearing(m)), owner, moments[2..]);
      if raised {
        return true, 2;
      }
      failed, used := FinishRouted(m, moments[2..]);
      assert moments[2..][used..] == moments[used + 2..];
      used := used + 2;
    }

    method FinishRouted(m: string, moments: seq<Moment>) returns (failed: bool, used: nat)
      requires |moments| >= 2
      modifies this`lease, this`running, this`pending, this`failures, this`log
      ensures used <= 2
      ensures Play(old(At(Clearing(m))), owner, moments)
           == Play(At(if failed then Failed(m) else Between()), owner, moments[used..])
    {
      ghost var goal := Play(At(Clearing(m)), owner, moments);
      var raised := ClearFailure(Clearing(m), m, moments[0]);
      assert goal == Play(At(if raised then Failed(m) else Acking(m)), owner, moments[1..]);
      if raised {
        return true, 1;
      }
      var owned;
      owned, raised := AcknowledgeMessage(Acking(m), m, moments[1]);
      assert moments[1..][1..] == moments[2..];
      assert goal == Play(At(if raised then Failed(m) else Between()), owner, moments[2..]);
      return raised, 2;
    }

    /** The handler of its exceptions: check, count, and bury at the tenth. */
    method CountFailure(m: string, moments: seq<Moment>)
      requires |moments| >= 5
      modifies this`lease, this`running, this`pending, this`failures, this`log
      ensures Play(old(At(Failed(m))), owner, moments) == At(Between())
    {
      ghost var goal := Play(At(Failed(m)), owner, moments);
      var owned, raised := EnsureOwner(Failed(m), moments[0]);
      assert goal == Play(At(if !raised && owned then Counting(m) else Between()), owner, moments[1..]);
      if raised || !owned {
        return;
      }
      var count;
      count, raised := IncrementFailure(m, moments[1]);
      assert moments[1..][1..] == moments[2..];
      assert goal == Play(At(if raised || count < MAX_FAILURES then Between() else Burying(m)), owner, moments[2..]);
      if raised || count < MAX_FAILURES {
        return;
      }
      Bury(m, moments[2..]);
    }

    method Bury(m: string, moments: seq<Moment>)
      requires |moments| >= 3
      modifies this`lease, this`running, this`pending, this`failures, this`log
      ensures Play(old(At(Burying(m))), owner, moments) == At(Between())
    {
      ghost var goal := Play(At(Burying(m)), owner, moments);
      var raised := PublishDeadLetter(m, moments[0]);
      assert goal == Play(At(if raised then Between() else ClearingDead(m)), owner, moments[1..]);
      if raised {
        return;
      }
      FinishBuried(m, moments[1..]);
    }

    method FinishBuried(m: string, moments: seq<Moment>)
      requires |moments| >= 2
      modifies this`lease, this`running, this`pending, this`failures, this`log
      ensures Play(old(At(ClearingDead(m))), owner, moments) == At(Between())
    {
      ghost var goal := Play(At(ClearingDead(m)), owner, moments);
      var raised := ClearFailure(ClearingDead(m), m, moments[0]);
      assert goal == Play(At(if raised then Between() else AckingDead(m)), owner, moments[1..]);
      if raised {
        return;
      }
      var owned;
      owned, raised := AcknowledgeMessage(AckingDead(m), m, moments[1]);
      assert moments[1..][1..] == moments[2..];
      assert goal == Play(At(Between()), owner, moments[2..]);
    }

    /** Whatever happens at its suspension points, handling a message is a run of the automaton from its
        entry to the next message or the stop of the consumer. */
    method Handle(m: string, body: bool, moments: seq<Moment>)
      requires running && |moments| >= LONGEST
      modifies this`lease, this`running, this`pending, this`failures, this`log
      ensures At(Between()) == Play(old(At(Entering(m, body))), owner, moments)
    {
      ghost var goal := Play(At(Entering(m, body)), owner, moments);
      var owned, raised := EnsureOwner(Entering(m, body), moments[0]);
      assert goal == Play(At(if raised || !owned then Between() else if body then Checking(m) else NoBody(m)),
                          owner, moments[1..]);
      if raised || !owned {
        return;
      }
      if !body {
        owned, raised := AcknowledgeMessage(NoBody(m), m, moments[1]);
        assert moments[1..][1..] == moments[2..];
        assert goal == Play(At(Between()), owner, moments[2..]);
        return;
      }
      var failed, used := TryRoute(m, moments[1..]);
      if failed {
        CountFailure(m, moments[1..][used..]);
      }
    }
  }
}

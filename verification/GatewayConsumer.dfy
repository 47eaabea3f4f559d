/** Any number of gateway processes consume the realtime stream as one group; the gateway lease may move
    between any two suspension points of any of them. */
module GatewayConsumer {
  import opened Options

  const MAX_FAILURES := 10

  /** Where a gateway stands; each value is a suspension point of the consuming loop. */
  datatype Point =
    | Stopped
    | Polling                    // about to check ownership before reading
    | Reading                    // about to claim stale or read new messages
    | Entering(m: string, body: bool)
    | NoBody(m: string)          // about to acknowledge a message whose body is gone
    | Checking(m: string)        // second ownership check, now inside the try block
    | Routing(m: string)
    | Clearing(m: string)        // routed, about to clear the failure count
    | Acking(m: string)
    | Failed(m: string)          // in the handler of an exception, checking ownership again
    | Counting(m: string)
    | Burying(m: string)         // about to publish to the dead-letter stream
    | ClearingDead(m: string)
    | AckingDead(m: string)

  datatype Message = Message(id: string, body: bool)

  /** `running` is the flag the loop looks at before each read and each message. */
  datatype Gateway = Gateway(at: Point, rest: seq<Message>, running: bool := true)

  /** What happened, in order. `Acked` is logged when the message actually leaves the pending list, `Cleared`
      when its failure count is forgotten, by a gateway or because it expired. */
  datatype Record =
    | Routed(gateway: string, m: string)
    | Bodiless(gateway: string, m: string)
    | Failure(gateway: string, m: string)
    | DeadLettered(gateway: string, m: string)
    | Cleared(m: string)
    | Acked(gateway: string, m: string, leaseHolder: Option<string>)

  datatype System = System(
    lease: Option<string>,
    gateways: map<string, Gateway>,
    seen: set<string>,
    pending: set<string>,
    failures: map<string, nat>,
    log: seq<Record>)

  /** How a suspended call ends: normally, raising without its effect, or raising after it; after finding the
      lease lost that means that the flag is cleared and the callback then raises. */
  datatype Outcome = Done | Raises | RaisesAfter

  datatype Step =
    | MoveLease(holder: Option<string>)
    | ExpireFailures(m: string)
    | Start(g: string)
    | Stop(g: string)
    | Crash(g: string)
    | ReadNew(g: string, messages: seq<Message>)
    | ClaimStale(g: string, messages: seq<Message>)
    | Advance(g: string, outcome: Outcome)

  function Ids(messages: seq<Message>): set<string> {
    set x | x in messages :: x.id
  }

  predicate Enabled(s: System, step: Step) {
    match step
    case MoveLease(_) => true
    case ExpireFailures(_) => true
    case Start(g) => g in s.gateways && s.gateways[g].at == Stopped
    case Stop(g) => g in s.gateways
    case Crash(g) => g in s.gateways
    case ReadNew(g, messages) => g in s.gateways && s.gateways[g].at == Reading && Ids(messages) !! s.seen
    case ClaimStale(g, messages) => g in s.gateways && s.gateways[g].at == Reading && Ids(messages) <= s.pending
    case Advance(g, _) => g in s.gateways && s.gateways[g].at != Stopped && s.gateways[g].at != Reading
  }

  /** The next message of the batch, back to polling, or the end of the loop. */
  function NextMessage(gateway: Gateway): Gateway {
    var rest := gateway.rest;
    if !gateway.running then STOPPED
    else if rest == [] then BROKEN_OFF
    else Gateway(Entering(rest[0].id, rest[0].body), rest[1..])
  }

  /** An exception outside the try block drops the rest of the batch, which stays pending. */
  const BROKEN_OFF := Gateway(Polling, [])
  const STOPPED := Gateway(Stopped, [], false)

  function BrokenOff(running: bool): Gateway {
    if running then BROKEN_OFF else STOPPED
  }

  function Put(s: System, g: string, gateway: Gateway): System {
    s.(gateways := s.gateways[g := gateway])
  }

  function Log(s: System, r: Record): System {
    s.(log := s.log + [r])
  }

  predicate Owns(s: System, g: string) {
    s.lease == Some(g)
  }

  /** The fenced acknowledgement: for the owner the message leaves the pending list, if it is still there. */
  function Acknowledge(s: System, g: string, m: string): System {
    if Owns(s, g) && m in s.pending then Log(s.(pending := s.pending - {m}), Acked(g, m, s.lease)) else s
  }

  /** What a suspended call of gateway `g` does to the shared state. */
  function Effect(s: System, g: string): System
    requires g in s.gateways
  {
    match s.gateways[g].at
    case NoBody(m) => if Owns(s, g) then Acknowledge(Log(s, Bodiless(g, m)), g, m) else s
    case Routing(m) => Log(s, Routed(g, m))
    case Clearing(m) => Forget(s, m)
    case Acking(m) => Acknowledge(s, g, m)
    case Counting(m) => Log(s.(failures := s.failures[m := Count(s.failures, m) + 1]), Failure(g, m))
    case Burying(m) => Log(s, DeadLettered(g, m))
    case ClearingDead(m) => Forget(s, m)
    case AckingDead(m) => Acknowledge(s, g, m)
    case _ => s
  }

  lemma EffectMovesNobody(s: System, g: string)
    requires g in s.gateways
    ensures Effect(s, g).gateways == s.gateways
  {}

  /** Where the gateway goes if the call ends without an exception. */
  function Moved(s: System, g: string): Gateway
    requires g in s.gateways
  {
    var gateway := s.gateways[g];
    if Checkpoint(gateway.at) && !Owns(s, g) then STOPPED
    else
      match gateway.at
      case Stopped => gateway
      case Polling => gateway.(at := Reading)
      case Reading => gateway
      case Entering(m, body) => gateway.(at := if body then Checking(m) else NoBody(m))
      case NoBody(m) => NextMessage(gateway)
      case Checking(m) => gateway.(at := Routing(m))
      case Routing(m) => gateway.(at := Clearing(m))
      case Clearing(m) => gateway.(at := Acking(m))
      case Acking(m) => NextMessage(gateway)
      case Failed(m) => gateway.(at := Counting(m))
      case Counting(m) => if Count(s.failures, m) + 1 < MAX_FAILURES then NextMessage(gateway) else gateway.(at := Burying(m))
      case Burying(m) => gateway.(at := ClearingDead(m))
      case ClearingDead(m) => gateway.(at := AckingDead(m))
      case AckingDead(m) => NextMessage(gateway)
  }

  function Proceed(s: System, g: string): System
    requires g in s.gateways
  {
    Put(Effect(s, g), g, Moved(s, g))
  }

  function Count(failures: map<string, nat>, m: string): nat {
    if m in failures then failures[m] else 0
  }

  function Forget(s: System, m: string): System {
    Log(s.(failures := s.failures - {m}), Cleared(m))
  }

  /** A call raises: inside the try block the handler takes over, elsewhere the loop drops its batch. */
  function Raised(gateway: Gateway): Gateway {
    match gateway.at
    case Checking(m) => gateway.(at := Failed(m))
    case Routing(m) => gateway.(at := Failed(m))
    case Clearing(m) => gateway.(at := Failed(m))
    case Acking(m) => gateway.(at := Failed(m))
    case _ => BrokenOff(gateway.running)
  }

  /** The calls that end with the ownership of the lease. */
  predicate Checkpoint(at: Point) {
    at.Polling? || at.Entering? || at.Checking? || at.Failed? || Acknowledging(at)
  }

  predicate Acknowledging(at: Point) {
    at.NoBody? || at.Acking? || at.AckingDead?
  }

  /** Where a suspended call of gateway `g` leads. */
  function Led(s: System, g: string, outcome: Outcome): Gateway
    requires g in s.gateways
  {
    var gateway := s.gateways[g];
    match outcome
    case Done => Moved(s, g)
    case Raises => Raised(gateway)
    case RaisesAfter => Raised(gateway.(running := gateway.running && (Checkpoint(gateway.at) ==> Owns(s, g))))
  }

  function Next(s: System, step: Step): System
    requires Enabled(s, step)
  {
    match step
    case MoveLease(holder) => s.(lease := holder)
    case ExpireFailures(m) => Forget(s, m)
    case Start(g) => Put(s, g, Gateway(Polling, []))
    case Stop(g) => Put(s, g, s.gateways[g].(running := false))
    case Crash(g) => Put(s, g, STOPPED)
    case ReadNew(g, messages) =>
      Put(s.(seen := s.seen + Ids(messages), pending := s.pending + Ids(messages)), g,
          NextMessage(s.gateways[g].(rest := messages)))
    case ClaimStale(g, messages) => Put(s, g, NextMessage(s.gateways[g].(rest := messages)))
    case Advance(g, outcome) => Put(if outcome == Raises then s else Effect(s, g), g, Led(s, g, outcome))
  }

  predicate ValidRun(s: System, steps: seq<Step>)
    decreases |steps|
  {
    steps == [] || (Enabled(s, steps[0]) && ValidRun(Next(s, steps[0]), steps[1..]))
  }

  function Run(s: System, steps: seq<Step>): System
    requires ValidRun(s, steps)
    decreases |steps|
  {
    if steps == [] then s else Run(Next(s, steps[0]), steps[1..])
  }

  predicate Initial(s: System) {
    && s.seen == {} && s.pending == {} && s.failures == map[] && s.log == []
    && forall g :: g in s.gateways ==> s.gateways[g] == STOPPED
  }

  // --- Invariants.

  /** Gateway `g` has routed, buried or found bodiless message `m`. */
  predicate Finished(log: seq<Record>, g: string, m: string) {
    Routed(g, m) in log || DeadLettered(g, m) in log || Bodiless(g, m) in log
  }

  /** How often handling `m` failed, over all gateways, since its count was last cleared. */
  function Failures(log: seq<Record>, m: string): nat {
    if log == [] then 0 else FailuresNext(Failures(log[..|log| - 1], m), log[|log| - 1], m)
  }

  function FailuresNext(count: nat, r: Record, m: string): nat {
    if r == Cleared(m) then 0 else if r.Failure? && r.m == m then count + 1 else count
  }

  /** A failure of this gateway was at least the tenth since the count was last cleared. */
  ghost predicate Exhausted(log: seq<Record>, g: string, m: string) {
    exists i :: 0 <= i < |log| && log[i] == Failure(g, m) && Failures(log[..i + 1], m) >= MAX_FAILURES
  }

  /** What a gateway about to do something has already done. */
  ghost predicate PointInv(log: seq<Record>, g: string, at: Point) {
    match at
    case Clearing(m) => Routed(g, m) in log
    case Acking(m) => Routed(g, m) in log
    case Burying(m) => Exhausted(log, g, m)
    case ClearingDead(m) => DeadLettered(g, m) in log
    case AckingDead(m) => DeadLettered(g, m) in log
    case _ => true
  }

  ghost predicate GatewaysInv(s: System) {
    forall g :: g in s.gateways ==> PointInv(s.log, g, s.gateways[g].at)
  }

  /** Record `i` had its cause before it. */
  ghost predicate Justified(log: seq<Record>, i: nat)
    requires i < |log|
  {
    match log[i]
    case Acked(g, m, holder) => holder == Some(g) && Finished(log[..i], g, m)
    case DeadLettered(g, m) => Exhausted(log[..i], g, m)
    case _ => true
  }

  ghost predicate LogInv(log: seq<Record>) {
    forall i :: 0 <= i < |log| ==> Justified(log, i)
  }

  /** The stored count is the number of failures since it was last cleared. */
  ghost predicate CountsInv(s: System) {
    forall m :: Count(s.failures, m) == Failures(s.log, m)
  }

  predicate IsAck(r: Record, m: string) {
    r.Acked? && r.m == m
  }

  function Acks(log: seq<Record>, m: string): nat {
    if log == [] then 0
    else Acks(log[..|log| - 1], m) + if IsAck(log[|log| - 1], m) then 1 else 0
  }

  /** A message is pending from its first delivery to its one acknowledgement. */
  ghost predicate PendingInv(s: System) {
    s.pending <= s.seen
    && forall m :: Acks(s.log, m) == if m in s.seen && m !in s.pending then 1 else 0
  }

  ghost predicate Inv(s: System) {
    GatewaysInv(s) && LogInv(s.log) && CountsInv(s) && PendingInv(s)
  }

  // --- The log only grows.

  lemma FailuresAppend(log: seq<Record>, r: Record, m: string)
    ensures Failures(log + [r], m) == FailuresNext(Failures(log, m), r, m)
    ensures Acks(log + [r], m) == Acks(log, m) + if IsAck(r, m) then 1 else 0
  {
    assert (log + [r])[..|log|] == log;
  }

  lemma LogInvAppend(log: seq<Record>, r: Record)
    requires LogInv(log) && Justified(log + [r], |log|)
    ensures LogInv(log + [r])
  {
    var all := log + [r];
    forall i | 0 <= i < |log| ensures Justified(all, i) {
      assert Justified(log, i) && all[..i] == log[..i];
    }
  }

  /** What is known about the other gateways survives a new record. */
  lemma PointInvAppend(log: seq<Record>, r: Record, g: string, at: Point)
    requires PointInv(log, g, at)
    ensures PointInv(log + [r], g, at)
  {
    if at.Burying? {
      ExhaustedAppend(log, r, g, at.m);
    }
  }

  lemma ExhaustedAppend(log: seq<Record>, r: Record, g: string, m: string)
    requires Exhausted(log, g, m)
    ensures Exhausted(log + [r], g, m)
  {
    var i :| 0 <= i < |log| && log[i] == Failure(g, m) && Failures(log[..i + 1], m) >= MAX_FAILURES;
    assert (log + [r])[i] == log[i] && (log + [r])[..i + 1] == log[..i + 1];
  }

  /** One gateway moves, with at most one record and what it does to the counts and the pending list. */
  lemma PutKeepsGateways(s: System, t: System, g: string)
    requires GatewaysInv(s) && g in s.gateways && g in t.gateways && t.gateways == s.gateways[g := t.gateways[g]]
    requires t.log == s.log || (|t.log| == |s.log| + 1 && t.log[..|s.log|] == s.log)
    requires PointInv(t.log, g, t.gateways[g].at)
    ensures GatewaysInv(t)
  {
    forall h | h in t.gateways ensures PointInv(t.log, h, t.gateways[h].at) {
      if h != g {
        assert PointInv(s.log, h, s.gateways[h].at);
        if t.log != s.log {
          assert t.log == s.log + [t.log[|s.log|]];
          PointInvAppend(s.log, t.log[|s.log|], h, s.gateways[h].at);
        }
      }
    }
  }

  lemma AcknowledgeKeepsPending(s: System, g: string, m: string)
    requires PendingInv(s)
    ensures PendingInv(Acknowledge(s, g, m))
  {
    var t := Acknowledge(s, g, m);
    forall x ensures Acks(t.log, x) == if x in t.seen && x !in t.pending then 1 else 0 {
      FailuresAppend(s.log, Acked(g, m, s.lease), x);
      assert Acks(s.log, x) == if x in s.seen && x !in s.pending then 1 else 0;
    }
  }

  lemma AcknowledgeKeepsLog(s: System, g: string, m: string)
    requires LogInv(s.log) && CountsInv(s) && Finished(s.log, g, m)
    ensures LogInv(Acknowledge(s, g, m).log) && CountsInv(Acknowledge(s, g, m))
  {
    var r := Acked(g, m, s.lease);
    if Owns(s, g) && m in s.pending {
      assert (s.log + [r])[..|s.log|] == s.log;
      LogInvAppend(s.log, r);
      RecordKeepsCounts(s, Acknowledge(s, g, m), r);
    }
  }

  /** The stored counts follow the log. */
  lemma RecordKeepsCounts(s: System, t: System, r: Record)
    requires CountsInv(s) && t.log == s.log + [r]
    requires forall m :: Count(t.failures, m) == FailuresNext(Count(s.failures, m), r, m)
    ensures CountsInv(t)
  {
    forall m ensures Count(t.failures, m) == Failures(t.log, m) {
      FailuresAppend(s.log, r, m);
      assert Count(s.failures, m) == Failures(s.log, m);
    }
  }

  lemma RecordKeepsPending(s: System, t: System, r: Record)
    requires PendingInv(s) && !r.Acked? && t.log == s.log + [r] && t.seen == s.seen && t.pending == s.pending
    ensures PendingInv(t)
  {
    forall x ensures Acks(t.log, x) == if x in t.seen && x !in t.pending then 1 else 0 {
      FailuresAppend(s.log, r, x);
      assert Acks(s.log, x) == if x in s.seen && x !in s.pending then 1 else 0;
    }
  }

  lemma RecordKeepsLog(log: seq<Record>, r: Record)
    requires LogInv(log) && !r.Acked?
    requires r.DeadLettered? ==> Exhausted(log, r.gateway, r.m)
    ensures LogInv(log + [r])
  {
    assert (log + [r])[..|log|] == log;
    LogInvAppend(log, r);
  }

  // --- One step at a time.

  /** Finding no body is recorded with the acknowledgement that follows. */
  lemma NoBodyKeepsInvariant(s: System, g: string)
    requires Inv(s) && g in s.gateways && s.gateways[g].at.NoBody?
    ensures Inv(Proceed(s, g))
  {
    var m, t := s.gateways[g].at.m, Proceed(s, g);
    if Owns(s, g) {
      var r := Bodiless(g, m);
      var found := Log(s, r);
      RecordKeepsPending(s, found, r);
      RecordKeepsLog(s.log, r);
      RecordKeepsCounts(s, found, r);
      PutKeepsGateways(s, found, g);
      AcknowledgeKeepsInvariant(found, g, m, t.gateways[g]);
    } else {
      QuietKeepsInvariant(s, t, g);
    }
  }

  predicate Recording(at: Point) {
    at.Routing? || at.Counting? || at.Burying? || at.Clearing? || at.ClearingDead?
  }

  lemma AckKeepsInvariant(s: System, g: string)
    requires Inv(s) && g in s.gateways && (s.gateways[g].at.Acking? || s.gateways[g].at.AckingDead?)
    ensures Inv(Proceed(s, g))
  {
    assert PointInv(s.log, g, s.gateways[g].at);
    AcknowledgeKeepsInvariant(s, g, s.gateways[g].at.m, Proceed(s, g).gateways[g]);
  }

  lemma AcknowledgeKeepsInvariant(s: System, g: string, m: string, gateway: Gateway)
    requires Inv(s) && g in s.gateways && Finished(s.log, g, m)
    requires gateway.at.Stopped? || gateway.at.Polling? || gateway.at.Entering?
    ensures Inv(Put(Acknowledge(s, g, m), g, gateway))
  {
    var t := Acknowledge(s, g, m);
    AcknowledgeKeepsPending(s, g, m);
    AcknowledgeKeepsLog(s, g, m);
    if t != s {
      LogKeepsGateways(s, t, Acked(g, m, s.lease));
    }
    QuietKeepsInvariant(t, Put(t, g, gateway), g);
  }

  /** The record a gateway writes next. */
  function NewRecord(g: string, at: Point): Record
    requires Recording(at)
  {
    if at.Routing? then Routed(g, at.m)
    else if at.Counting? then Failure(g, at.m)
    else if at.Burying? then DeadLettered(g, at.m)
    else Cleared(at.m)
  }

  lemma RecordKeepsInvariant(s: System, g: string)
    requires Inv(s) && g in s.gateways && Recording(s.gateways[g].at)
    ensures Inv(Proceed(s, g))
  {
    var at, t := s.gateways[g].at, Proceed(s, g);
    var r := NewRecord(g, at);
    assert t.log == s.log + [r] && t.seen == s.seen && t.pending == s.pending;
    assert PointInv(s.log, g, at);
    RecordKeepsPending(s, t, r);
    RecordKeepsLog(s.log, r);
    RecordKeepsCounts(s, t, r);
    PointInvAppend(s.log, r, g, at);
    if at.Counting? {
      TenthFailure(s, g);
    }
    PutKeepsGateways(s, t, g);
  }

  lemma TenthFailure(s: System, g: string)
    requires CountsInv(s) && g in s.gateways && s.gateways[g].at.Counting?
    ensures PointInv(Proceed(s, g).log, g, Proceed(s, g).gateways[g].at)
  {
    var m := s.gateways[g].at.m;
    var log := s.log + [Failure(g, m)];
    FailuresAppend(s.log, Failure(g, m), m);
    assert Count(s.failures, m) == Failures(s.log, m);
    assert log[|s.log|] == Failure(g, m) && log[..|s.log| + 1] == log;
  }

  /** A count expires. */
  lemma ForgetKeepsInvariant(s: System, m: string)
    requires Inv(s)
    ensures Inv(Forget(s, m))
  {
    var t, r := Forget(s, m), Cleared(m);
    RecordKeepsPending(s, t, r);
    RecordKeepsLog(s.log, r);
    RecordKeepsCounts(s, t, r);
    LogKeepsGateways(s, t, r);
  }

  lemma LogKeepsGateways(s: System, t: System, r: Record)
    requires GatewaysInv(s) && t.gateways == s.gateways && t.log == s.log + [r]
    ensures GatewaysInv(t)
  {
    forall g | g in t.gateways ensures PointInv(t.log, g, t.gateways[g].at) {
      assert PointInv(s.log, g, s.gateways[g].at);
      PointInvAppend(s.log, r, g, s.gateways[g].at);
    }
  }

  lemma QuietKeepsInvariant(s: System, t: System, g: string)
    requires Inv(s) && g in s.gateways && g in t.gateways
    requires t == s.(gateways := s.gateways[g := t.gateways[g]])
    requires PointInv(s.log, g, t.gateways[g].at)
    ensures Inv(t)
  {
    PutKeepsGateways(s, t, g);
  }

  lemma ProceedKeepsInvariant(s: System, g: string)
    requires Inv(s) && g in s.gateways
    ensures Inv(Proceed(s, g))
  {
    if s.gateways[g].at.NoBody? {
      NoBodyKeepsInvariant(s, g);
    } else if Acknowledging(s.gateways[g].at) {
      AckKeepsInvariant(s, g);
    } else if Recording(s.gateways[g].at) {
      RecordKeepsInvariant(s, g);
    } else {
      assert PointInv(s.log, g, s.gateways[g].at);
      QuietKeepsInvariant(s, Proceed(s, g), g);
    }
  }

  lemma RaiseAfterKeepsInvariant(s: System, g: string)
    requires Inv(s) && g in s.gateways
    ensures Inv(Put(Effect(s, g), g, Led(s, g, RaisesAfter)))
  {
    var p, t := Proceed(s, g), Put(Effect(s, g), g, Led(s, g, RaisesAfter));
    ProceedKeepsInvariant(s, g);
    assert t.gateways == p.gateways[g := t.gateways[g]];
    QuietKeepsInvariant(p, t, g);
  }

  lemma ReadKeepsInvariant(s: System, g: string, messages: seq<Message>)
    requires Inv(s) && Enabled(s, ReadNew(g, messages))
    ensures Inv(Next(s, ReadNew(g, messages)))
  {
    var t := Next(s, ReadNew(g, messages));
    PutKeepsGateways(s, t, g);
    forall x ensures Acks(t.log, x) == if x in t.seen && x !in t.pending then 1 else 0 {
      assert Acks(s.log, x) == if x in s.seen && x !in s.pending then 1 else 0;
    }
  }

  lemma StepKeepsInvariant(s: System, step: Step)
    requires Inv(s) && Enabled(s, step)
    ensures Inv(Next(s, step))
  {
    match step {
      case Advance(g, outcome) =>
        if outcome == Done {
          ProceedKeepsInvariant(s, g);
        } else if outcome == Raises {
          QuietKeepsInvariant(s, Next(s, step), g);
        } else {
          RaiseAfterKeepsInvariant(s, g);
        }
      case ReadNew(g, messages) => ReadKeepsInvariant(s, g, messages);
      case ExpireFailures(m) => ForgetKeepsInvariant(s, m);
      case Start(g) => QuietKeepsInvariant(s, Next(s, step), g);
      case Stop(g) => QuietKeepsInvariant(s, Next(s, step), g);
      case Crash(g) => QuietKeepsInvariant(s, Next(s, step), g);
      case ClaimStale(g, _) => QuietKeepsInvariant(s, Next(s, step), g);
      case _ =>
    }
  }

  // --- Whole runs.

  lemma {:induction false} RunKeepsInvariant(s: System, steps: seq<Step>)
    requires Inv(s) && ValidRun(s, steps)
    ensures Inv(Run(s, steps))
    decreases |steps|
  {
    if steps != [] {
      StepKeepsInvariant(s, steps[0]);
      RunKeepsInvariant(Next(s, steps[0]), steps[1..]);
    }
  }

  /** Nothing is swallowed: in every run, however the lease moves and whichever gateways crash, a delivered
      message is still pending or was acknowledged exactly once, by the gateway that held the lease at that
      moment, after that same gateway had routed it, buried it or found its body gone; and whatever a gateway
      buries it has itself failed to handle, for the tenth time at least since the count was last cleared. */
  lemma NothingSwallowed(start: System, steps: seq<Step>, m: string)
    requires Initial(start) && ValidRun(start, steps)
    ensures var s := Run(start, steps);
      && (m in s.pending ==> Acks(s.log, m) == 0)
      && (m in s.seen && m !in s.pending ==> Acks(s.log, m) == 1)
      && (forall i :: 0 <= i < |s.log| ==> Justified(s.log, i))
  {
    RunKeepsInvariant(start, steps);
  }

  /** Handled by the owner without a failure, a message is routed once, its failure count is forgotten and
      it leaves the pending list. */
  lemma RoutedDelivery(s: System, g: string, m: string)
    requires Owns(s, g) && g in s.gateways && s.gateways[g] == Gateway(Entering(m, true), []) && m in s.pending
    ensures var steps := [Advance(g, Done), Advance(g, Done)] + [Advance(g, Done), Advance(g, Done), Advance(g, Done)];
      ValidRun(s, steps) && Run(s, steps)
      == s.(gateways := s.gateways[g := BROKEN_OFF], pending := s.pending - {m}, failures := s.failures - {m},
            log := s.log + [Routed(g, m), Cleared(m), Acked(g, m, Some(g))])
  {
    OwnerReachesRouting(s, g, m);
    RoutingToTheEnd(Put(s, g, Gateway(Routing(m), [])), g, m);
    RunConcat(s, [Advance(g, Done), Advance(g, Done)], [Advance(g, Done), Advance(g, Done), Advance(g, Done)]);
  }

  lemma OwnerReachesRouting(s: System, g: string, m: string)
    requires Owns(s, g) && g in s.gateways && s.gateways[g] == Gateway(Entering(m, true), [])
    ensures ValidRun(s, [Advance(g, Done), Advance(g, Done)])
    ensures Run(s, [Advance(g, Done), Advance(g, Done)]) == Put(s, g, Gateway(Routing(m), []))
  {
    var checking, routing := Put(s, g, Gateway(Checking(m), [])), Put(s, g, Gateway(Routing(m), []));
    assert routing == Next(checking, Advance(g, Done));
    TwoSteps(s, [Advance(g, Done), Advance(g, Done)], checking, routing);
  }

  lemma RoutingToTheEnd(s: System, g: string, m: string)
    requires Owns(s, g) && g in s.gateways && s.gateways[g] == Gateway(Routing(m), []) && m in s.pending
    ensures var steps := [Advance(g, Done), Advance(g, Done), Advance(g, Done)];
      ValidRun(s, steps) && Run(s, steps)
      == s.(gateways := s.gateways[g := BROKEN_OFF], pending := s.pending - {m}, failures := s.failures - {m},
            log := s.log + [Routed(g, m), Cleared(m), Acked(g, m, Some(g))])
  {
    var a := Next(s, Advance(g, Done));
    RoutesAndMoves(s, g, m);
    var b := Next(a, Advance(g, Done));
    ClearsAndMoves(a, g, m);
    var c := Next(b, Advance(g, Done));
    OwnerAcknowledges(b, g, m);
    assert c.gateways == s.gateways[g := BROKEN_OFF];
    assert c.log == s.log + [Routed(g, m), Cleared(m), Acked(g, m, Some(g))];
    ThreeCalls(s, g, a, b, c);
  }

  lemma RoutesAndMoves(s: System, g: string, m: string)
    requires g in s.gateways && s.gateways[g] == Gateway(Routing(m), [])
    ensures Next(s, Advance(g, Done)) == s.(gateways := s.gateways[g := Gateway(Clearing(m), [])], log := s.log + [Routed(g, m)])
  {}

  lemma ClearsAndMoves(s: System, g: string, m: string)
    requires g in s.gateways && s.gateways[g] == Gateway(Clearing(m), [])
    ensures Next(s, Advance(g, Done)) == s.(gateways := s.gateways[g := Gateway(Acking(m), [])], failures := s.failures - {m},
                                            log := s.log + [Cleared(m)])
  {}

  lemma OwnerAcknowledges(s: System, g: string, m: string)
    requires Owns(s, g) && g in s.gateways && m in s.pending
    requires s.gateways[g] == Gateway(Acking(m), []) || s.gateways[g] == Gateway(AckingDead(m), [])
    ensures Next(s, Advance(g, Done)) == s.(gateways := s.gateways[g := BROKEN_OFF], pending := s.pending - {m},
                                            log := s.log + [Acked(g, m, Some(g))])
  {}

  /** After a crash: whoever holds the lease next starts, finds the message pending, routes and acknowledges
      it. */
  lemma CrashRecovers(s: System, g: string, m: string)
    requires Owns(s, g) && g in s.gateways && s.gateways[g].at == Stopped && m in s.pending
    ensures var opening := [Start(g), Advance(g, Done), ClaimStale(g, [Message(m, true)])];
      && ValidRun(s, opening)
      && var t := Run(s, opening);
      && t == Put(s, g, Gateway(Entering(m, true), []))
      && var steps := [Advance(g, Done), Advance(g, Done)] + [Advance(g, Done), Advance(g, Done), Advance(g, Done)];
      && ValidRun(t, steps) && m !in Run(t, steps).pending && Routed(g, m) in Run(t, steps).log
  {
    var opening := [Start(g), Advance(g, Done), ClaimStale(g, [Message(m, true)])];
    var polling, reading := Put(s, g, Gateway(Polling, [])), Put(s, g, Gateway(Reading, []));
    var t := Put(s, g, Gateway(Entering(m, true), []));
    assert Ids([Message(m, true)]) == {m};
    assert [Message(m, true)][1..] == [];
    assert Next(reading, opening[2]) == t;
    ThreeSteps(s, opening, polling, reading, t);
    RoutedDelivery(t, g, m);
  }

  /** A gateway may crash anywhere, with its batch lost to it, and any number of them start out stopped. */
  lemma CrashDropsBatch(s: System, g: string, names: set<string>)
    ensures g in s.gateways ==> Enabled(s, Crash(g)) && Next(s, Crash(g)) == s.(gateways := s.gateways[g := Gateway(Stopped, [], false)])
    ensures Initial(System(None, map h | h in names :: Gateway(Stopped, [], false), {}, {}, map[], []))
  {}

  /** A message not delivered before is read, and is pending from then on. */
  lemma NewMessageIsPending(s: System, g: string, m: string)
    requires g in s.gateways && s.gateways[g] == Gateway(Reading, []) && m !in s.seen
    ensures Enabled(s, ReadNew(g, [Message(m, true)]))
    ensures Next(s, ReadNew(g, [Message(m, true)]))
         == s.(gateways := s.gateways[g := Gateway(Entering(m, true), [])], seen := s.seen + {m}, pending := s.pending + {m})
  {
    assert Ids([Message(m, true)]) == {m};
    assert [Message(m, true)][1..] == [];
  }

  /** Forgetting a count, by expiry too, leaves every other one. */
  lemma ExpiryForgets(s: System, m: string, other: string)
    ensures Enabled(s, ExpireFailures(m))
    ensures var t := Next(s, ExpireFailures(m));
      && t == s.(failures := t.failures, log := s.log + [Cleared(m)]) && m !in t.failures
      && (other != m ==> (other in t.failures <==> other in s.failures) && (other in s.failures ==> t.failures[other] == s.failures[other]))
  {}

  /** A message whose body is gone is acknowledged without being routed. */
  lemma BodilessDelivery(s: System, g: string, m: string)
    requires Owns(s, g) && g in s.gateways && s.gateways[g] == Gateway(Entering(m, false), []) && m in s.pending
    ensures var steps := [Advance(g, Done), Advance(g, Done)];
      ValidRun(s, steps) && Run(s, steps)
      == s.(gateways := s.gateways[g := BROKEN_OFF], pending := s.pending - {m},
            log := s.log + [Bodiless(g, m), Acked(g, m, Some(g))])
  {
    var acking := Put(s, g, Gateway(NoBody(m), []));
    var done := Next(acking, Advance(g, Done));
    assert s.log + [Bodiless(g, m)] + [Acked(g, m, Some(g))] == s.log + [Bodiless(g, m), Acked(g, m, Some(g))];
    assert done.gateways == s.gateways[g := BROKEN_OFF];
    TwoSteps(s, [Advance(g, Done), Advance(g, Done)], acking, done);
  }

  /** Wherever ownership is checked, a gateway without the lease stops and has no other effect. */
  lemma StaleGatewayStops(s: System, g: string)
    requires g in s.gateways && !Owns(s, g) && Checkpoint(s.gateways[g].at)
    ensures Proceed(s, g) == s.(gateways := s.gateways[g := STOPPED])
  {}

  /** Not stopped yet, but on the way: with the flag cleared a gateway is about its current message `m` at
      most. */
  predicate Winding(gateway: Gateway, m: string) {
    !gateway.running && (gateway.at.Stopped? || gateway.at.Polling? || gateway.at.Reading? || gateway.at.m == m)
  }

  /** Once its flag is cleared, by losing the lease or on request, a gateway turns to no other message until
      it is started again, whatever raises on the way, its callback included. */
  lemma {:induction false} ClearedFlagEnds(s: System, g: string, m: string, steps: seq<Step>)
    requires ValidRun(s, steps) && g in s.gateways && Winding(s.gateways[g], m) && Start(g) !in steps
    ensures g in Run(s, steps).gateways && Winding(Run(s, steps).gateways[g], m)
    decreases |steps|
  {
    if steps != [] {
      assert steps[0] != Start(g);
      StaysWinding(s, g, m, steps[0]);
      ClearedFlagEnds(Next(s, steps[0]), g, m, steps[1..]);
    }
  }

  lemma StaysWinding(s: System, g: string, m: string, step: Step)
    requires Enabled(s, step) && g in s.gateways && Winding(s.gateways[g], m) && step != Start(g)
    ensures g in Next(s, step).gateways && Winding(Next(s, step).gateways[g], m)
  {
    if step.Advance? {
      if step.g == g {
        ProceedWinds(s, g, m);
      } else {
        assert Effect(s, step.g).gateways == s.gateways;
      }
    }
  }

  lemma ProceedWinds(s: System, g: string, m: string)
    requires g in s.gateways && Winding(s.gateways[g], m)
    ensures g in Proceed(s, g).gateways && Winding(Proceed(s, g).gateways[g], m)
    ensures Winding(Raised(s.gateways[g].(running := false)), m)
  {}

  /** One delivery whose routing raises, with the lease held throughout. */
  function FailingDelivery(g: string, last: bool): seq<Step> {
    [Advance(g, Done), Advance(g, Done), Advance(g, Raises), Advance(g, Done), Advance(g, Done)]
    + if last then Burial(g) else []
  }

  function Burial(g: string): seq<Step> {
    [Advance(g, Done), Advance(g, Done), Advance(g, Done)]
  }

  /** Up to the count: routing raises, the handler finds itself owner and counts. */
  lemma CountedDelivery(s: System, g: string, m: string, count: nat)
    requires Owns(s, g) && g in s.gateways && s.gateways[g] == Gateway(Entering(m, true), [])
    requires count == Count(s.failures, m)
    ensures ValidRun(s, FailingDelivery(g, false))
    ensures var t := Run(s, FailingDelivery(g, false));
      && t == s.(gateways := t.gateways, failures := s.failures[m := count + 1], log := s.log + [Failure(g, m)])
      && g in t.gateways
      && t.gateways[g] == if count + 1 >= MAX_FAILURES then Gateway(Burying(m), []) else Gateway(Polling, [])
  {
    var raising, counting := [Advance(g, Done), Advance(g, Done), Advance(g, Raises)], [Advance(g, Done), Advance(g, Done)];
    RaisedRouting(s, g, m);
    CountedFailure(Put(s, g, Gateway(Failed(m), [])), g, m, count);
    RunConcat(s, raising, counting);
    assert FailingDelivery(g, false) == raising + counting;
  }

  lemma CountedFailure(s: System, g: string, m: string, count: nat)
    requires Owns(s, g) && g in s.gateways && s.gateways[g] == Gateway(Failed(m), []) && count == Count(s.failures, m)
    ensures var steps := [Advance(g, Done), Advance(g, Done)];
      && ValidRun(s, steps)
      && Run(s, steps) == Put(Log(s.(failures := s.failures[m := count + 1]), Failure(g, m)), g,
           if count + 1 >= MAX_FAILURES then Gateway(Burying(m), []) else BROKEN_OFF)
  {
    var d := Put(s, g, Gateway(Counting(m), []));
    var e := Next(d, Advance(g, Done));
    assert e.gateways == s.gateways[g := e.gateways[g]];
    TwoSteps(s, [Advance(g, Done), Advance(g, Done)], d, e);
  }

  lemma RaisedRouting(s: System, g: string, m: string)
    requires Owns(s, g) && g in s.gateways && s.gateways[g] == Gateway(Entering(m, true), [])
    ensures var steps := [Advance(g, Done), Advance(g, Done), Advance(g, Raises)];
      ValidRun(s, steps) && Run(s, steps) == Put(s, g, Gateway(Failed(m), []))
  {
    var a := Put(s, g, Gateway(Checking(m), []));
    var b := Put(a, g, Gateway(Routing(m), []));
    var c := Put(b, g, Gateway(Failed(m), []));
    assert c == Put(s, g, Gateway(Failed(m), []));
    ThreeSteps(s, [Advance(g, Done), Advance(g, Done), Advance(g, Raises)], a, b, c);
  }

  /** From there the owner buries and acknowledges the message. */
  lemma BuriedDelivery(s: System, g: string, m: string)
    requires Owns(s, g) && g in s.gateways && s.gateways[g] == Gateway(Burying(m), []) && m in s.pending
    ensures ValidRun(s, Burial(g))
    ensures var t := Run(s, Burial(g));
      && g in t.gateways && t.gateways[g].at == Polling && m !in t.pending && m !in t.failures
      && t.log == s.log + [DeadLettered(g, m), Cleared(m), Acked(g, m, Some(g))]
  {
    var x := Next(s, Advance(g, Done));
    var y := Next(x, Advance(g, Done));
    var z := Next(y, Advance(g, Done));
    OwnerAcknowledges(y, g, m);
    assert z.log == s.log + [DeadLettered(g, m), Cleared(m), Acked(g, m, Some(g))];
    ThreeCalls(s, g, x, y, z);
  }

  /** A failing delivery by the owner counts once more; the tenth buries and acknowledges the message, an
      earlier one leaves it pending. */
  lemma FailingDeliveryEffect(s: System, g: string, m: string, count: nat)
    requires Owns(s, g) && g in s.gateways && s.gateways[g] == Gateway(Entering(m, true), []) && m in s.pending
    requires count == Count(s.failures, m)
    ensures var last := count + 1 >= 10;
      && ValidRun(s, FailingDelivery(g, last))
      && var t := Run(s, FailingDelivery(g, last));
      && g in t.gateways && t.gateways[g].at == Polling
      && (m in t.pending <==> !last)
      && (m in t.failures <==> !last) && (!last ==> t.failures[m] == count + 1)
      && t.log == s.log + if last then [Failure(g, m), DeadLettered(g, m), Cleared(m), Acked(g, m, Some(g))] else [Failure(g, m)]
  {
    CountedDelivery(s, g, m, count);
    if count + 1 >= MAX_FAILURES {
      var e := Run(s, FailingDelivery(g, false));
      BuriedDelivery(e, g, m);
      RunConcat(s, FailingDelivery(g, false), Burial(g));
      assert FailingDelivery(g, true) == FailingDelivery(g, false) + Burial(g);
      assert [Failure(g, m)] + [DeadLettered(g, m), Cleared(m), Acked(g, m, Some(g))] == [Failure(g, m), DeadLettered(g, m), Cleared(m), Acked(g, m, Some(g))];
    }
  }

  lemma ThreeCalls(s: System, g: string, a: System, b: System, c: System)
    requires Enabled(s, Advance(g, Done)) && a == Next(s, Advance(g, Done))
    requires Enabled(a, Advance(g, Done)) && b == Next(a, Advance(g, Done))
    requires Enabled(b, Advance(g, Done)) && c == Next(b, Advance(g, Done))
    ensures ValidRun(s, Burial(g)) && Run(s, Burial(g)) == c
  {
    var step := Advance(g, Done);
    var steps := [step, step, step];
    assert steps[0] == steps[1] == steps[2] == step;
    ThreeSteps(s, steps, a, b, c);
  }

  lemma ThreeSteps(s: System, steps: seq<Step>, a: System, b: System, c: System)
    requires |steps| == 3
    requires Enabled(s, steps[0]) && a == Next(s, steps[0])
    requires Enabled(a, steps[1]) && b == Next(a, steps[1])
    requires Enabled(b, steps[2]) && c == Next(b, steps[2])
    ensures ValidRun(s, steps) && Run(s, steps) == c
  {
    assert steps[1..][1..] == steps[2..] && steps[2..][1..] == [];
    assert ValidRun(c, []) && ValidRun(b, steps[2..]) && ValidRun(a, steps[1..]);
    assert Run(c, []) == c && Run(b, steps[2..]) == c && Run(a, steps[1..]) == c;
  }

  lemma TwoSteps(s: System, steps: seq<Step>, a: System, b: System)
    requires |steps| == 2
    requires Enabled(s, steps[0]) && a == Next(s, steps[0])
    requires Enabled(a, steps[1]) && b == Next(a, steps[1])
    ensures ValidRun(s, steps) && Run(s, steps) == b
  {
    assert steps[1..][1..] == [];
    assert ValidRun(b, []) && ValidRun(a, steps[1..]);
    assert Run(b, []) == b && Run(a, steps[1..]) == b;
  }

  lemma {:induction false} RunConcat(s: System, a: seq<Step>, b: seq<Step>)
    requires ValidRun(s, a) && ValidRun(Run(s, a), b)
    ensures ValidRun(s, a + b) && Run(s, a + b) == Run(Run(s, a), b)
    decreases |a|
  {
    if a == [] {
      assert a + b == b;
    } else {
      assert (a + b)[1..] == a[1..] + b;
      RunConcat(Next(s, a[0]), a[1..], b);
    }
  }
}

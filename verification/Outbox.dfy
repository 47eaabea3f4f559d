/** The transactional outbox: rows claimed for a limited time by any number of publishers, and marked
    afterwards from what the publisher read. */
module Outbox {
  import opened Options

  datatype Status = Pending | Processing | Sent | Failed

  datatype Row = Row(status: Status, retryCount: nat, maxRetries: nat, nextRetryAt: Option<int>)

  const BASE_DELAY := 5
  const MAX_DELAY := 300

  /** The wait after failure number `n`, counted from 1. */
  function Delay(n: nat): nat {
    if n <= 1 then BASE_DELAY
    else if 2 * Delay(n - 1) < MAX_DELAY then 2 * Delay(n - 1) else MAX_DELAY
  }

  /** The source's formula. */
  function Doubling(n: nat): nat {
    if n == 0 then 1 else 2 * Doubling(n - 1)
  }

  predicate Due(r: Row, now: int) {
    (r.status == Pending && (r.nextRetryAt.Some? ==> r.nextRetryAt.value <= now))
    || (r.status == Processing && r.nextRetryAt.Some? && r.nextRetryAt.value <= now)
  }

  function Claimed(r: Row, deadline: int): Row {
    r.(status := Processing, nextRetryAt := Some(deadline))
  }

  function MarkedSent(r: Row): Row {
    r.(status := Sent, nextRetryAt := None)
  }

  /** One more failure of the row as it was read. */
  function MarkedRetry(r: Row, now: int): Row {
    var count := r.retryCount + 1;
    if count >= r.maxRetries then r.(retryCount := count, status := Failed, nextRetryAt := None)
    else r.(retryCount := count, status := Pending, nextRetryAt := Some(now + Delay(count)))
  }

  /** Only the columns a mark changed are written back, the count as it was read plus one. */
  function Written(current: Row, marked: Row): Row {
    marked.(maxRetries := current.maxRetries)
  }

  /** Claim number `n` of an event in the hands of a publisher: its deadline, and the row once read. */
  datatype Task = Task(deadline: int, read: Option<Row>)
  datatype Ticket = Ticket(event: string, n: nat)

  /** `claims` counts the claims of each event and `failures` keeps the waits scheduled for it; both are
      history. */
  datatype System = System(
    rows: map<string, Row>,
    claims: map<string, nat>,
    failures: map<string, seq<nat>>,
    tasks: map<Ticket, Task>,
    clock: int)

  datatype Step =
    | Tick(now: int)
    | Claim(event: string, timeout: nat)
    | Load(ticket: Ticket)
    | Succeed(ticket: Ticket)
    | Fail(ticket: Ticket)
    | Crash(ticket: Ticket)

  predicate Enabled(s: System, step: Step) {
    match step
    case Tick(now) => s.clock <= now
    case Claim(e, timeout) => e in s.rows && e in s.claims && Due(s.rows[e], s.clock)
    case Load(t) => t in s.tasks && s.tasks[t].read.None? && t.event in s.rows
    case Succeed(t) => t in s.tasks && s.tasks[t].read.Some? && t.event in s.rows
    case Fail(t) => t in s.tasks && s.tasks[t].read.Some? && t.event in s.rows && t.event in s.failures
    case Crash(t) => t in s.tasks
  }

  function Next(s: System, step: Step): System
    requires Enabled(s, step)
  {
    match step
    case Tick(now) => s.(clock := now)
    case Claim(e, timeout) =>
      var n := s.claims[e] + 1;
      s.(rows := s.rows[e := Claimed(s.rows[e], s.clock + timeout)], claims := s.claims[e := n],
         tasks := s.tasks[Ticket(e, n) := Task(s.clock + timeout, None)])
    case Load(t) =>
      if s.rows[t.event].status == Processing then s.(tasks := s.tasks[t := s.tasks[t].(read := Some(s.rows[t.event]))])
      else s.(tasks := s.tasks - {t})
    case Succeed(t) => s.(rows := s.rows[t.event := MarkedSent(s.rows[t.event])], tasks := s.tasks - {t})
    case Fail(t) =>
      var r := MarkedRetry(s.tasks[t].read.value, s.clock);
      var waits := if r.status == Pending then [Delay(r.retryCount)] else [];
      s.(rows := s.rows[t.event := Written(s.rows[t.event], r)], tasks := s.tasks - {t},
         failures := s.failures[t.event := s.failures[t.event] + waits])
    case Crash(t) => s.(tasks := s.tasks - {t})
  }

  /** A publisher marks before its own claim runs out. */
  predicate Timely(s: System, step: Step) {
    (step.Succeed? || step.Fail?) && step.ticket in s.tasks ==> s.clock < s.tasks[step.ticket].deadline
  }

  predicate ValidRun(s: System, steps: seq<Step>)
    decreases |steps|
  {
    steps == [] || (Enabled(s, steps[0]) && ValidRun(Next(s, steps[0]), steps[1..]))
  }

  predicate TimelyRun(s: System, steps: seq<Step>)
    requires ValidRun(s, steps)
    decreases |steps|
  {
    steps == [] || (Timely(s, steps[0]) && TimelyRun(Next(s, steps[0]), steps[1..]))
  }

  function Run(s: System, steps: seq<Step>): System
    requires ValidRun(s, steps)
    decreases |steps|
  {
    if steps == [] then s else Run(Next(s, steps[0]), steps[1..])
  }

  /** Events as created: pending, never tried. */
  predicate Initial(s: System) {
    && s.claims.Keys == s.failures.Keys == s.rows.Keys && s.tasks == map[]
    && forall e :: e in s.rows ==>
         s.rows[e].status == Pending && s.rows[e].retryCount == 0 && s.rows[e].nextRetryAt == None
         && s.claims[e] == 0 && s.failures[e] == []
  }

  // --- Invariants of timely runs.

  predicate Shaped(s: System) {
    s.claims.Keys == s.failures.Keys == s.rows.Keys
  }

  /** The newest claim of an event still owns its row as read; an older one has run out. */
  predicate TaskInv(s: System, t: Ticket)
    requires Shaped(s) && t in s.tasks
  {
    && t.event in s.rows && 1 <= t.n <= s.claims[t.event]
    && (t.n < s.claims[t.event] ==> s.tasks[t].deadline <= s.clock)
    && (t.n == s.claims[t.event] ==>
          && s.rows[t.event].status == Processing && s.rows[t.event].nextRetryAt == Some(s.tasks[t].deadline)
          && (s.tasks[t].read.Some? ==> s.tasks[t].read.value == s.rows[t.event]))
  }

  /** The failures of an event are counted, stop at its limit, and each but the last scheduled its wait. */
  predicate RowInv(r: Row, waits: seq<nat>) {
    && (r.status == Failed <==> r.retryCount > 0 && r.retryCount >= r.maxRetries)
    && r.retryCount <= (if r.maxRetries > 1 then r.maxRetries else 1)
    && |waits| == r.retryCount - (if r.status == Failed then 1 else 0)
    && (forall i :: 0 <= i < |waits| ==> waits[i] == Delay(i + 1))
  }

  ghost predicate Inv(s: System) {
    && Shaped(s)
    && (forall t :: t in s.tasks ==> TaskInv(s, t))
    && (forall e :: e in s.rows ==> RowInv(s.rows[e], s.failures[e]))
  }

  /** A timely mark acts on the row exactly as it stands. */
  lemma TimelyMarkIsFresh(s: System, step: Step)
    requires Inv(s) && Enabled(s, step) && Timely(s, step) && (step.Succeed? || step.Fail?)
    ensures var r := s.rows[step.ticket.event];
      s.tasks[step.ticket].read == Some(r) && r.status == Processing && step.ticket.n == s.claims[step.ticket.event]
  {
    assert TaskInv(s, step.ticket);
  }

  lemma ClaimKeepsTasks(s: System, step: Step, t: Ticket)
    requires Inv(s) && Enabled(s, step) && step.Claim? && t in Next(s, step).tasks
    ensures TaskInv(Next(s, step), t)
  {
    if t != Ticket(step.event, s.claims[step.event] + 1) {
      assert TaskInv(s, t);
    }
  }

  lemma MarkKeepsTasks(s: System, step: Step, t: Ticket)
    requires Inv(s) && Enabled(s, step) && Timely(s, step) && (step.Succeed? || step.Fail?) && t in Next(s, step).tasks
    ensures Shaped(Next(s, step)) && TaskInv(Next(s, step), t)
  {
    TimelyMarkIsFresh(s, step);
    assert TaskInv(s, t);
  }

  lemma QuietKeepsTasks(s: System, step: Step, t: Ticket)
    requires Inv(s) && Enabled(s, step) && (step.Tick? || step.Load? || step.Crash?) && t in Next(s, step).tasks
    ensures TaskInv(Next(s, step), t)
  {
    assert TaskInv(s, t);
  }

  lemma StepKeepsRow(s: System, step: Step, e: string)
    requires Inv(s) && Enabled(s, step) && Timely(s, step) && e in s.rows
    ensures e in Next(s, step).rows && e in Next(s, step).failures
    ensures RowInv(Next(s, step).rows[e], Next(s, step).failures[e])
  {
    assert RowInv(s.rows[e], s.failures[e]);
    if step.Succeed? || step.Fail? {
      TimelyMarkIsFresh(s, step);
    }
  }

  lemma StepKeepsInvariant(s: System, step: Step)
    requires Inv(s) && Enabled(s, step) && Timely(s, step)
    ensures Inv(Next(s, step))
  {
    var t := Next(s, step);
    forall x | x in t.tasks ensures Shaped(t) && TaskInv(t, x) {
      if step.Claim? {
        ClaimKeepsTasks(s, step, x);
      } else if step.Succeed? || step.Fail? {
        MarkKeepsTasks(s, step, x);
      } else {
        QuietKeepsTasks(s, step, x);
      }
    }
    StepKeepsShape(s, step);
    forall e | e in t.rows ensures RowInv(t.rows[e], t.failures[e]) {
      StepKeepsRow(s, step, e);
    }
  }

  lemma StepKeepsShape(s: System, step: Step)
    ensures Shaped(s) && Enabled(s, step) ==> Shaped(Next(s, step)) && Next(s, step).rows.Keys == s.rows.Keys
  {}

  lemma {:induction false} RunKeepsInvariant(s: System, steps: seq<Step>)
    requires Inv(s) && ValidRun(s, steps) && TimelyRun(s, steps)
    ensures Inv(Run(s, steps))
    decreases |steps|
  {
    if steps != [] {
      StepKeepsInvariant(s, steps[0]);
      RunKeepsInvariant(Next(s, steps[0]), steps[1..]);
    }
  }

  // --- Main results.

  lemma FinalStep(s: System, step: Step, e: string)
    requires Inv(s) && Enabled(s, step) && Timely(s, step) && e in s.rows && (s.rows[e].status == Sent || s.rows[e].status == Failed)
    ensures e in Next(s, step).rows && Next(s, step).rows[e] == s.rows[e]
    ensures e in Next(s, step).claims && Next(s, step).claims[e] == s.claims[e]
  {
    if step.Succeed? || step.Fail? {
      TimelyMarkIsFresh(s, step);
    }
  }

  /** An event sent or given up is never touched again while publishers finish within their claims. */
  lemma {:induction false} FinalStaysFinal(s: System, steps: seq<Step>, e: string)
    requires Inv(s) && ValidRun(s, steps) && TimelyRun(s, steps) && e in s.rows && (s.rows[e].status == Sent || s.rows[e].status == Failed)
    ensures e in Run(s, steps).rows && Run(s, steps).rows[e] == s.rows[e]
    ensures e in Run(s, steps).claims && Run(s, steps).claims[e] == s.claims[e]
    decreases |steps|
  {
    if steps != [] {
      FinalStep(s, steps[0], e);
      StepKeepsInvariant(s, steps[0]);
      FinalStaysFinal(Next(s, steps[0]), steps[1..], e);
    }
  }

  /** Over any timely run failures stay within the limit, an event is given up exactly at its limit, and
      the waits scheduled are 5, 10, 20, ... up to 300 in that order. */
  lemma RetriesAreBounded(start: System, steps: seq<Step>, e: string)
    requires Initial(start) && ValidRun(start, steps) && TimelyRun(start, steps) && e in start.rows
    ensures var s := Run(start, steps);
      && e in s.rows && e in s.failures && RowInv(s.rows[e], s.failures[e])
      && var r, waits := s.rows[e], s.failures[e];
      && (r.status == Failed <==> r.retryCount > 0 && r.retryCount >= r.maxRetries)
      && r.retryCount <= (if r.maxRetries > 1 then r.maxRetries else 1)
      && |waits| == r.retryCount - (if r.status == Failed then 1 else 0)
      && forall i :: 0 <= i < |waits| ==> waits[i] == Delay(i + 1)
  {
    RunKeepsInvariant(start, steps);
    RunKeepsRows(start, steps);
  }

  lemma {:induction false} RunKeepsRows(s: System, steps: seq<Step>)
    requires Shaped(s) && ValidRun(s, steps)
    ensures Run(s, steps).rows.Keys == s.rows.Keys
    decreases |steps|
  {
    if steps != [] {
      StepKeepsShape(s, steps[0]);
      RunKeepsRows(Next(s, steps[0]), steps[1..]);
    }
  }

  /** No event is claimed again before its deadline unless its claimer marked it. */
  lemma {:induction false} NotClaimedEarly(s: System, steps: seq<Step>, e: string, deadline: int)
    requires ValidRun(s, steps) && e in s.rows && e in s.claims
    requires s.rows[e].status == Processing && s.rows[e].nextRetryAt == Some(deadline)
    requires Run(s, steps).clock < deadline
    requires forall k :: 0 <= k < |steps| && (steps[k].Succeed? || steps[k].Fail?) ==> steps[k].ticket.event != e
    ensures e in Run(s, steps).rows && e in Run(s, steps).claims
    ensures Run(s, steps).claims[e] == s.claims[e] && Run(s, steps).rows[e] == s.rows[e]
    decreases |steps|
  {
    if steps != [] {
      ClockAdvances(Next(s, steps[0]), steps[1..]);
      assert forall k :: 0 <= k < |steps| - 1 ==> steps[1..][k] == steps[k + 1];
      NotClaimedEarly(Next(s, steps[0]), steps[1..], e, deadline);
    }
  }

  /** What a mark leaves of the row it was made from: sent and due no more, given up at its limit and due no
      more, or pending again after the delay. */
  lemma MarksCases(r: Row, now: int)
    ensures MarkedSent(r) == Row(Sent, r.retryCount, r.maxRetries, None)
    ensures r.retryCount + 1 >= r.maxRetries ==> MarkedRetry(r, now) == Row(Failed, r.retryCount + 1, r.maxRetries, None)
    ensures r.retryCount + 1 < r.maxRetries ==>
      MarkedRetry(r, now) == Row(Pending, r.retryCount + 1, r.maxRetries, Some(now + Delay(r.retryCount + 1)))
  {}

  /** A publisher that is quick enough sends: it claims the event, reads it, and marks it before its claim runs
      out; or it may crash with the claim in hand. */
  lemma PromptPublisherSends(s: System, e: string, timeout: nat)
    requires Inv(s) && Enabled(s, Claim(e, timeout)) && timeout > 0
    ensures var t := Ticket(e, s.claims[e] + 1);
      var steps := [Claim(e, timeout)] + ([Load(t)] + ([Succeed(t)] + []));
      && ValidRun(s, steps) && TimelyRun(s, steps) && e in Run(s, steps).rows
      && Run(s, steps).rows[e] == s.rows[e].(status := Sent, nextRetryAt := None)
      && Enabled(Next(s, Claim(e, timeout)), Crash(t))
  {
    var t := Ticket(e, s.claims[e] + 1);
    var a := Next(s, Claim(e, timeout));
    var b := Next(a, Load(t));
    RunCons(b, Succeed(t), []);
    RunCons(a, Load(t), [Succeed(t)] + []);
    RunCons(s, Claim(e, timeout), [Load(t)] + ([Succeed(t)] + []));
    assert TimelyRun(Next(b, Succeed(t)), []);
    assert ([Succeed(t)] + [])[1..] == [] && ([Load(t)] + ([Succeed(t)] + []))[1..] == [Succeed(t)] + [];
    assert TimelyRun(b, [Succeed(t)] + []);
    assert TimelyRun(a, [Load(t)] + ([Succeed(t)] + []));
    assert ([Claim(e, timeout)] + ([Load(t)] + ([Succeed(t)] + [])))[1..] == [Load(t)] + ([Succeed(t)] + []);
  }

  /** What becomes of a claim in hand: marked or abandoned it is gone, and so it is if its row is found to be
      claimed no more; the event keeps its limit throughout. */
  lemma TicketCases(s: System, step: Step)
    requires Enabled(s, step) && (step.Load? || step.Succeed? || step.Fail? || step.Crash?)
    ensures var t := Next(s, step);
      && (step.ticket in t.tasks <==> step.Load? && s.rows[step.ticket.event].status == Processing)
      && (step.ticket in t.tasks ==> t.tasks[step.ticket].read == Some(s.rows[step.ticket.event]))
      && (step.Load? || step.Crash? ==> t.rows == s.rows)
      && (step.ticket.event in s.rows ==> t.rows[step.ticket.event].maxRetries == s.rows[step.ticket.event].maxRetries)
  {}

  /** An event is claimed only when it is pending and its retry time, if it has one, has come, or when a claim
      on it has run out. */
  lemma ClaimableIff(s: System, e: string, timeout: nat)
    requires e in s.rows && e in s.claims
    ensures Enabled(s, Claim(e, timeout)) <==>
      && (s.rows[e].status == Pending || (s.rows[e].status == Processing && s.rows[e].nextRetryAt.Some?))
      && (s.rows[e].nextRetryAt.None? || s.rows[e].nextRetryAt.value <= s.clock)
  {}

  /** A row waiting for its retry time is not touched before it. */
  lemma {:induction false} NotRetriedEarly(s: System, steps: seq<Step>, e: string, time: int)
    requires Inv(s) && ValidRun(s, steps) && TimelyRun(s, steps) && e in s.rows && e in s.claims
    requires s.rows[e].status == Pending && s.rows[e].nextRetryAt == Some(time) && Run(s, steps).clock < time
    ensures e in Run(s, steps).rows && e in Run(s, steps).claims
    ensures Run(s, steps).claims[e] == s.claims[e] && Run(s, steps).rows[e] == s.rows[e]
    decreases |steps|
  {
    if steps != [] {
      ClockAdvances(s, steps);
      ClockAdvances(Next(s, steps[0]), steps[1..]);
      WaitsUnchanged(s, steps[0], e, time);
      StepKeepsInvariant(s, steps[0]);
      NotRetriedEarly(Next(s, steps[0]), steps[1..], e, time);
    }
  }

  lemma WaitsUnchanged(s: System, step: Step, e: string, time: int)
    requires Inv(s) && Enabled(s, step) && Timely(s, step) && e in s.rows
    requires s.rows[e].status == Pending && s.rows[e].nextRetryAt == Some(time) && s.clock < time
    ensures e in Next(s, step).rows && e in Next(s, step).claims
    ensures Next(s, step).rows[e] == s.rows[e] && Next(s, step).claims[e] == s.claims[e]
  {
    if step.Succeed? || step.Fail? {
      TimelyMarkIsFresh(s, step);
    }
  }

  /** The back-off over whole runs: after its `n`-th failure, unless it was the last one allowed, an event is
      pending again and nobody claims it before the delay for `n` has passed. */
  lemma FailureBacksOff(s: System, t: Ticket, steps: seq<Step>)
    requires Inv(s) && Enabled(s, Fail(t)) && Timely(s, Fail(t))
    requires var n := s.rows[t.event].retryCount + 1; n < s.rows[t.event].maxRetries
    requires ValidRun(Next(s, Fail(t)), steps) && TimelyRun(Next(s, Fail(t)), steps)
    ensures var n := s.rows[t.event].retryCount + 1;
      var u := Run(Next(s, Fail(t)), steps);
      u.clock < s.clock + Delay(n) ==>
        && t.event in u.claims && u.claims[t.event] == s.claims[t.event]
        && t.event in u.rows && u.rows[t.event] == Next(s, Fail(t)).rows[t.event]
  {
    var n, f := s.rows[t.event].retryCount + 1, Next(s, Fail(t));
    FailureSchedules(s, t);
    StepKeepsInvariant(s, Fail(t));
    if Run(f, steps).clock < s.clock + Delay(n) {
      NotRetriedEarly(f, steps, t.event, s.clock + Delay(n));
    }
  }

  /** That is how it stands after the failure. */
  lemma FailureSchedules(s: System, t: Ticket)
    requires Inv(s) && Enabled(s, Fail(t)) && Timely(s, Fail(t)) && s.rows[t.event].retryCount + 1 < s.rows[t.event].maxRetries
    ensures var n, u := s.rows[t.event].retryCount + 1, Next(s, Fail(t));
      && t.event in u.rows && u.rows[t.event] == s.rows[t.event].(status := Pending, retryCount := n, nextRetryAt := Some(s.clock + Delay(n)))
      && t.event in u.claims && u.claims == s.claims && u.clock == s.clock
  {
    TimelyMarkIsFresh(s, Fail(t));
  }

  /** When it has passed. */
  lemma ThenClaimable(s: System, t: Ticket, timeout: nat)
    requires Inv(s) && Enabled(s, Fail(t)) && Timely(s, Fail(t)) && s.rows[t.event].retryCount + 1 < s.rows[t.event].maxRetries
    ensures var u := Next(s, Fail(t));
      var tick := Tick(s.clock + Delay(s.rows[t.event].retryCount + 1));
      Enabled(u, tick) && Enabled(Next(u, tick), Claim(t.event, timeout))
  {
    FailureSchedules(s, t);
  }

  lemma {:induction false} ClockAdvances(s: System, steps: seq<Step>)
    requires ValidRun(s, steps)
    ensures s.clock <= Run(s, steps).clock
    decreases |steps|
  {
    if steps != [] {
      ClockAdvances(Next(s, steps[0]), steps[1..]);
    }
  }

  /** The waits never shrink, never pass the maximum, and are the capped doubling the source computes. */
  lemma {:induction false} DelayIsCappedDoubling(n: nat)
    requires n >= 1
    ensures Delay(n) == if BASE_DELAY * Doubling(n - 1) < MAX_DELAY then BASE_DELAY * Doubling(n - 1) else MAX_DELAY
    ensures Delay(1) == 5 && 5 <= Delay(n) <= Delay(n + 1) <= 300 && (Delay(n) < 300 ==> Delay(n) == 5 * Doubling(n - 1))
  {
    if n > 1 {
      DelayIsCappedDoubling(n - 1);
    }
  }

  /** A mark is made from the row as read, so a late one rewrites a final row exactly when its own outcome
      is another one. */
  lemma LateMarkRevertsIff(s: System, step: Step)
    requires Enabled(s, step) && (step.Succeed? || step.Fail?)
    requires s.rows[step.ticket.event].status == Sent || s.rows[step.ticket.event].status == Failed
    ensures var r := s.tasks[step.ticket].read.value;
      Next(s, step).rows[step.ticket.event].status != s.rows[step.ticket.event].status <==>
        if step.Succeed? then s.rows[step.ticket.event].status == Failed
        else r.retryCount + 1 < r.maxRetries || s.rows[step.ticket.event].status == Sent
  {}

  lemma RunCons(s: System, step: Step, rest: seq<Step>)
    requires Enabled(s, step) && ValidRun(Next(s, step), rest)
    ensures ValidRun(s, [step] + rest) && Run(s, [step] + rest) == Run(Next(s, step), rest)
  {
    assert ([step] + rest)[1..] == rest;
  }

  /** A new event whose first publisher overruns its claim while a second one publishes it. */
  function Overrun(e: string): seq<Step> {
    [Claim(e, 60)] + ([Load(Ticket(e, 1))] + ([Tick(60)] + ([Claim(e, 60)] + ([Load(Ticket(e, 2))] + ([Succeed(Ticket(e, 2))] + [])))))
  }

  /** A reachable instance: when the first publisher then fails, the event that was sent returns to the
      queue to be published once more. */
  lemma LateFailureReopensSent(e: string, maxRetries: nat)
    requires maxRetries > 1
    ensures var start := System(map[e := Row(Pending, 0, maxRetries, None)], map[e := 0], map[e := []], map[], 0);
      && Initial(start) && ValidRun(start, Overrun(e))
      && var s := Run(start, Overrun(e));
      && e in s.rows && s.rows[e].status == Sent && Enabled(s, Fail(Ticket(e, 1))) && !Timely(s, Fail(Ticket(e, 1)))
      && Next(s, Fail(Ticket(e, 1))).rows[e] == Row(Pending, 1, maxRetries, Some(60 + Delay(1)))
  {
    var s0 := System(map[e := Row(Pending, 0, maxRetries, None)], map[e := 0], map[e := []], map[], 0);
    var late, prompt := Ticket(e, 1), Ticket(e, 2);
    var s1 := Next(s0, Claim(e, 60));
    var s2 := Next(s1, Load(late));
    var s3 := Next(s2, Tick(60));
    var s4 := Next(s3, Claim(e, 60));
    var s5 := Next(s4, Load(prompt));
    assert s5.tasks[late].read == Some(Row(Processing, 0, maxRetries, Some(60)));
    RunCons(s5, Succeed(prompt), []);
    RunCons(s4, Load(prompt), [Succeed(prompt)] + []);
    RunCons(s3, Claim(e, 60), [Load(prompt)] + ([Succeed(prompt)] + []));
    RunCons(s2, Tick(60), [Claim(e, 60)] + ([Load(prompt)] + ([Succeed(prompt)] + [])));
    RunCons(s1, Load(late), [Tick(60)] + ([Claim(e, 60)] + ([Load(prompt)] + ([Succeed(prompt)] + []))));
    RunCons(s0, Claim(e, 60), [Load(late)] + ([Tick(60)] + ([Claim(e, 60)] + ([Load(prompt)] + ([Succeed(prompt)] + [])))));
  }

  // --- The rows as the repository changes them.

  /** The rows a claim takes: the first `batch` due ones, in id order, that no other transaction has locked. */
  function Chosen(rows: seq<Row>, locked: set<nat>, batch: nat, now: int): seq<nat> {
    if rows == [] then [] else
      var i := |rows| - 1;
      var front := Chosen(rows[..i], locked, batch, now);
      if |front| < batch && Due(rows[i], now) && i !in locked then front + [i] else front
  }

  /** A due unlocked row is passed over only for a full batch of earlier ones. */
  lemma {:induction false} ChosenIff(rows: seq<Row>, locked: set<nat>, batch: nat, now: int, i: nat)
    requires i < |rows|
    ensures i in Chosen(rows, locked, batch, now) <==>
      && (rows[i].status == Pending || (rows[i].status == Processing && rows[i].nextRetryAt.Some?))
      && (rows[i].nextRetryAt.None? || rows[i].nextRetryAt.value <= now)
      && i !in locked && |Chosen(rows[..i], locked, batch, now)| < batch
    ensures |Chosen(rows, locked, batch, now)| <= batch
  {
    var n := |rows| - 1;
    ChosenBounds(rows[..n], locked, batch, now);
    if i < n {
      ChosenIff(rows[..n], locked, batch, now, i);
      assert rows[..n][..i] == rows[..i];
    }
  }

  lemma {:induction false} ChosenBounds(rows: seq<Row>, locked: set<nat>, batch: nat, now: int)
    ensures |Chosen(rows, locked, batch, now)| <= batch
    ensures forall x :: x in Chosen(rows, locked, batch, now) ==> x < |rows|
  {
    if rows != [] {
      ChosenBounds(rows[..|rows| - 1], locked, batch, now);
    }
  }

  class OutboxEvent {
    var status: Status
    var retryCount: nat
    const maxRetries: nat
    var nextRetryAt: Option<int>

    constructor (maxRetries: nat)
      ensures Value() == Row(Pending, 0, maxRetries, None)
    {
      status, retryCount, this.maxRetries, nextRetryAt := Pending, 0, maxRetries, None;
    }

    function Value(): Row
      reads this
    {
      Row(status, retryCount, maxRetries, nextRetryAt)
    }

    method MarkSent()
      modifies this
      ensures Value() == MarkedSent(old(Value()))
    {
      status := Sent;
      nextRetryAt := None;
    }

    method MarkFailed()
      modifies this
      ensures Value() == old(Value()).(status := Failed, nextRetryAt := None)
    {
      status := Failed;
      nextRetryAt := None;
    }

    method MarkRetry(now: int)
      modifies this
      ensures Value() == MarkedRetry(old(Value()), now)
    {
      retryCount := retryCount + 1;
      if retryCount >= maxRetries {
        MarkFailed();
        return;
      }
      var delaySeconds := BASE_DELAY * Doubling(retryCount - 1);
      if delaySeconds > MAX_DELAY {
        delaySeconds := MAX_DELAY;
      }
      DelayIsCappedDoubling(retryCount);
      status := Pending;
      nextRetryAt := Some(now + delaySeconds);
    }
  }

  ghost function Rows(events: seq<OutboxEvent>): (rows: seq<Row>)
    reads events
  {
    seq(|events|, i requires 0 <= i < |events| reads events => events[i].Value())
  }

  /** The query. */
  method ChooseEvents(events: seq<OutboxEvent>, locked: set<nat>, batchSize: nat, now: int) returns (chosen: seq<nat>)
    ensures chosen == Chosen(Rows(events), locked, batchSize, now)
  {
    chosen := [];
    for i := 0 to |events|
      invariant chosen == Chosen(Rows(events)[..i], locked, batchSize, now)
    {
      assert Rows(events)[..i + 1][..i] == Rows(events)[..i];
      if |chosen| < batchSize && Due(events[i].Value(), now) && i !in locked {
        chosen := chosen + [i];
      }
    }
    assert Rows(events)[..|events|] == Rows(events);
  }

  method ClaimPendingEvents(events: seq<OutboxEvent>, locked: set<nat>, batchSize: nat, now: int, timeout: nat) returns (claimed: seq<nat>)
    requires forall i, j :: 0 <= i < j < |events| ==> events[i] != events[j]
    modifies events
    ensures claimed == Chosen(old(Rows(events)), locked, batchSize, now)
    ensures forall i :: 0 <= i < |events| ==>
      events[i].Value() == if i in claimed then Claimed(old(events[i].Value()), now + timeout) else old(events[i].Value())
  {
    claimed := ChooseEvents(events, locked, batchSize, now);
    for i := 0 to |events|
      invariant forall j :: i <= j < |events| ==> events[j].Value() == old(events[j].Value())
      invariant forall j :: 0 <= j < i ==>
        events[j].Value() == if j in claimed then Claimed(old(events[j].Value()), now + timeout) else old(events[j].Value())
    {
      if i in claimed {
        events[i].status := Processing;
        events[i].nextRetryAt := Some(now + timeout);
      }
    }
  }
}

/** The gateways' consumption of the stream and one client's connection together: which runs of the
    consumer route in stream order, as the delivery to the client relies on. */
module StreamRouting {
  import opened Options
  import opened StreamOrder
  import opened Delivery
  import G = GatewayConsumer
  import D = DeliverySystem

  // --- What has been routed, and what is about to be.

  /** The messages routed so far, each where it was routed first. */
  function FirstRouted(log: seq<G.Record>): seq<string> {
    if log == [] then [] else FirstNext(FirstRouted(log[..|log| - 1]), log[|log| - 1])
  }

  function FirstNext(routed: seq<string>, r: G.Record): seq<string> {
    if r.Routed? && r.m !in routed then routed + [r.m] else routed
  }

  lemma FirstRoutedAppend(log: seq<G.Record>, r: G.Record)
    ensures FirstRouted(log + [r]) == FirstNext(FirstRouted(log), r)
  {
    assert (log + [r])[..|log|] == log;
  }

  function IdList(messages: seq<G.Message>): seq<string> {
    if messages == [] then [] else [messages[0].id] + IdList(messages[1..])
  }

  /** The messages a gateway has taken and may yet route, in order. */
  function Hand(gateway: G.Gateway): seq<string> {
    match gateway.at
    case Entering(m, _) => [m] + IdList(gateway.rest)
    case Checking(m) => [m] + IdList(gateway.rest)
    case Routing(m) => [m] + IdList(gateway.rest)
    case _ => IdList(gateway.rest)
  }

  predicate EmptyHands(s: G.System) {
    forall g :: g in s.gateways ==> Hand(s.gateways[g]) == []
  }

  /** No message leaves a gateway's hands before it has been routed. */
  predicate DropsNothing(s: G.System, t: G.System) {
    forall g, m :: g in s.gateways && m in Hand(s.gateways[g]) ==>
      (g in t.gateways && m in Hand(t.gateways[g])) || m in FirstRouted(t.log)
  }

  /** What a reading gateway is handed: the next messages of the stream, bodies included. */
  predicate NextInStream(s: G.System, names: seq<string>, g: string, messages: seq<G.Message>) {
    && g in s.gateways && s.gateways[g].running
    && FirstRouted(s.log) + IdList(messages) <= names
  }

  /** Messages are taken only into empty hands, new ones in stream order, and none is dropped unrouted. */
  predicate Calm(s: G.System, names: seq<string>, step: G.Step) {
    && G.Enabled(s, step)
    && DropsNothing(s, G.Next(s, step))
    && (step.ReadNew? || step.ClaimStale? ==> EmptyHands(s))
    && (step.ReadNew? ==> NextInStream(s, names, step.g, step.messages))
  }

  // --- The invariant.

  predicate NoRepeats(names: seq<string>) {
    forall i, j :: 0 <= i < j < |names| ==> names[i] != names[j]
  }

  /** A hand holds the next messages of the stream, or messages that have been routed already. */
  predicate InOrder(routed: seq<string>, names: seq<string>, hand: seq<string>) {
    routed + hand <= names || forall m :: m in hand ==> m in routed
  }

  /** Messages are first routed in stream order, one gateway at a time has messages in hand, and every
      pending message was routed or is in hand. */
  ghost predicate Ordered(s: G.System, names: seq<string>) {
    var routed := FirstRouted(s.log);
    && NoRepeats(names) && routed <= names
    && (forall g :: g in s.gateways ==> InOrder(routed, names, Hand(s.gateways[g])))
    && (forall g, h :: g in s.gateways && h in s.gateways && Hand(s.gateways[g]) != [] && Hand(s.gateways[h]) != [] ==> g == h)
    && (forall m :: m in s.pending ==> m in routed || Held(s, m))
  }

  predicate Held(s: G.System, m: string) {
    exists g :: g in s.gateways && m in Hand(s.gateways[g])
  }

  // --- One gateway step at a time.

  /** What a gateway routes when its call ends so. */
  function RoutesNow(s: G.System, step: G.Step): Option<string> {
    if step.Advance? && step.g in s.gateways && s.gateways[step.g].at.Routing? && step.outcome != G.Raises
    then Some(s.gateways[step.g].at.m) else None
  }

  lemma FirstAfter(s: G.System, step: G.Step)
    requires G.Enabled(s, step)
    ensures FirstRouted(G.Next(s, step).log)
         == if RoutesNow(s, step).Some? then FirstNext(FirstRouted(s.log), G.Routed(step.g, RoutesNow(s, step).value))
            else FirstRouted(s.log)
  {
    match step {
      case ExpireFailures(m) => FirstRoutedAppend(s.log, G.Cleared(m));
      case Advance(g, outcome) => if outcome != G.Raises { FirstAfterEffect(s, g); }
      case _ =>
    }
  }

  lemma FirstAfterEffect(s: G.System, g: string)
    requires g in s.gateways
    ensures var at := s.gateways[g].at;
      FirstRouted(G.Effect(s, g).log)
      == if at.Routing? then FirstNext(FirstRouted(s.log), G.Routed(g, at.m)) else FirstRouted(s.log)
  {
    var at := s.gateways[g].at;
    if G.Recording(at) {
      var r := G.NewRecord(g, at);
      assert G.Effect(s, g).log == s.log + [r];
      FirstRoutedAppend(s.log, r);
    } else if at.NoBody? {
      FirstAfterNoBody(s, g, at.m);
    } else if G.Acknowledging(at) {
      assert G.Effect(s, g) == G.Acknowledge(s, g, at.m);
      FirstAfterAcknowledge(s, g, at.m);
    } else {
      assert G.Effect(s, g) == s;
    }
  }

  lemma FirstAfterNoBody(s: G.System, g: string, m: string)
    requires g in s.gateways && s.gateways[g].at == G.NoBody(m)
    ensures FirstRouted(G.Effect(s, g).log) == FirstRouted(s.log)
  {
    FirstRoutedAppend(s.log, G.Bodiless(g, m));
    FirstAfterAcknowledge(G.Log(s, G.Bodiless(g, m)), g, m);
  }

  lemma FirstAfterAcknowledge(s: G.System, g: string, m: string)
    ensures FirstRouted(G.Acknowledge(s, g, m).log) == FirstRouted(s.log)
  {
    FirstRoutedAppend(s.log, G.Acked(g, m, s.lease));
  }

  /** A call takes at most the first message out of the hand, or all of them; routing takes the one routed. */
  lemma HandAfterCall(s: G.System, g: string, outcome: G.Outcome)
    requires G.Enabled(s, G.Advance(g, outcome))
    ensures var hand, left := Hand(s.gateways[g]), Hand(G.Led(s, g, outcome));
      && (left == hand || left == [] || (hand != [] && left == hand[1..]))
      && (s.gateways[g].at.Routing? ==> hand != [] && hand[0] == s.gateways[g].at.m && left == hand[1..])
  {}

  lemma AdvanceKeepsHand(s: G.System, names: seq<string>, g: string, outcome: G.Outcome)
    requires Ordered(s, names) && Calm(s, names, G.Advance(g, outcome))
    ensures var t := G.Next(s, G.Advance(g, outcome));
      && FirstRouted(t.log) <= names && InOrder(FirstRouted(t.log), names, Hand(t.gateways[g]))
      && (FirstRouted(t.log) != FirstRouted(s.log) ==> Hand(s.gateways[g]) != [])
  {
    var t := G.Next(s, G.Advance(g, outcome));
    var routed, hand, left := FirstRouted(s.log), Hand(s.gateways[g]), Hand(t.gateways[g]);
    FirstAfter(s, G.Advance(g, outcome));
    HandAfterCall(s, g, outcome);
    if hand != [] && left == hand[1..] {
      TakesFirst(routed, names, hand);
      assert hand[0] in hand;
      assert hand[0] in left || hand[0] in FirstRouted(t.log);
    }
  }

  /** In order, the first message in hand is the next of the stream or has been routed. */
  lemma TakesFirst(routed: seq<string>, names: seq<string>, hand: seq<string>)
    requires NoRepeats(names) && routed <= names && hand != [] && InOrder(routed, names, hand)
    ensures hand[0] in routed ==> InOrder(routed, names, hand[1..])
    ensures hand[0] !in routed ==>
      && routed + [hand[0]] <= names && InOrder(routed + [hand[0]], names, hand[1..]) && hand[0] !in hand[1..]
  {
    assert hand == [hand[0]] + hand[1..];
    if routed + hand <= names {
      assert routed + [hand[0]] + hand[1..] == routed + hand;
      forall i | 0 <= i < |hand| ensures hand[i] == names[|routed| + i] {
        assert (routed + hand)[|routed| + i] == hand[i];
      }
      forall i | 0 <= i < |routed| ensures routed[i] == names[i] {}
    }
  }

  lemma AdvanceKeepsOrder(s: G.System, names: seq<string>, g: string, outcome: G.Outcome)
    requires Ordered(s, names) && Calm(s, names, G.Advance(g, outcome))
    ensures Ordered(G.Next(s, G.Advance(g, outcome)), names)
  {
    var t := G.Next(s, G.Advance(g, outcome));
    AdvanceKeepsHand(s, names, g, outcome);
    FirstAfter(s, G.Advance(g, outcome));
    HandAfterCall(s, g, outcome);
    if outcome != G.Raises {
      G.EffectMovesNobody(s, g);
      EffectTakesPending(s, g);
    }
    assert t.gateways == s.gateways[g := G.Led(s, g, outcome)];
    OneMoves(s, t, names, g);
  }

  lemma EffectTakesPending(s: G.System, g: string)
    requires g in s.gateways
    ensures G.Effect(s, g).pending <= s.pending
  {}

  /** One gateway's hand shrinks or stays, and what leaves it has been routed. */
  lemma OneMoves(s: G.System, t: G.System, names: seq<string>, g: string)
    requires Ordered(s, names) && DropsNothing(s, t) && g in s.gateways && g in t.gateways
    requires t.gateways == s.gateways[g := t.gateways[g]] && t.pending <= s.pending
    requires FirstRouted(s.log) <= FirstRouted(t.log) <= names && InOrder(FirstRouted(t.log), names, Hand(t.gateways[g]))
    requires Hand(t.gateways[g]) != [] || FirstRouted(t.log) != FirstRouted(s.log) ==> Hand(s.gateways[g]) != []
    ensures Ordered(t, names)
  {
    var routed := FirstRouted(t.log);
    forall h | h in t.gateways ensures InOrder(routed, names, Hand(t.gateways[h])) {
      if h != g {
        assert InOrder(FirstRouted(s.log), names, Hand(s.gateways[h]));
        assert routed + [] == routed;
      }
    }
    forall m | m in t.pending ensures m in routed || Held(t, m) {
      if m in FirstRouted(s.log) {
        StillIn(FirstRouted(s.log), routed, m);
      } else {
        assert Held(s, m);
        var h :| h in s.gateways && m in Hand(s.gateways[h]);
        assert m !in routed ==> h in t.gateways && m in Hand(t.gateways[h]);
      }
    }
  }

  lemma StillIn(a: seq<string>, b: seq<string>, m: string)
    requires a <= b && m in a
    ensures m in b
  {
    var i :| 0 <= i < |a| && a[i] == m;
    assert b[i] == m;
  }

  /** Reading and claiming, into empty hands. */
  lemma TakingKeepsOrder(s: G.System, names: seq<string>, step: G.Step)
    requires Ordered(s, names) && Calm(s, names, step) && (step.ReadNew? || step.ClaimStale?)
    ensures Ordered(G.Next(s, step), names)
  {
    var g, t, hand := step.g, G.Next(s, step), IdList(step.messages);
    var routed := FirstRouted(s.log);
    assert s.gateways[g].at == G.Reading && t.log == s.log;
    assert t.gateways == s.gateways[g := t.gateways[g]];
    TakenHand(s.gateways[g], step.messages);
    if step.ClaimStale? {
      forall m | m in hand ensures m in routed {
        IdListIds(step.messages, m);
        assert m in s.pending && !Held(s, m);
      }
    }
    assert routed + [] == routed;
    assert forall h :: h in t.gateways && h != g ==> Hand(t.gateways[h]) == [];
    assert InOrder(routed, names, Hand(t.gateways[g]));
    forall m | m in t.pending ensures m in routed || Held(t, m) {
      if m in s.pending {
        assert !Held(s, m);
      } else {
        IdListIds(step.messages, m);
        assert m in Hand(t.gateways[g]);
      }
    }
  }

  lemma TakenHand(gateway: G.Gateway, messages: seq<G.Message>)
    ensures Hand(G.NextMessage(gateway.(rest := messages))) == if gateway.running then IdList(messages) else []
  {}

  lemma {:induction false} IdListIds(messages: seq<G.Message>, m: string)
    ensures m in IdList(messages) <==> m in G.Ids(messages)
  {
    if messages != [] {
      IdListIds(messages[1..], m);
      assert messages == [messages[0]] + messages[1..];
      if m in G.Ids(messages) {
        var x :| x in messages && x.id == m;
        assert x == messages[0] || x in messages[1..];
      }
    }
  }

  /** Whatever calm step is taken, messages go on being first routed in stream order. */
  lemma StepKeepsOrder(s: G.System, names: seq<string>, step: G.Step)
    requires Ordered(s, names) && Calm(s, names, step)
    ensures Ordered(G.Next(s, step), names)
  {
    FirstAfter(s, step);
    match step {
      case Advance(g, outcome) => AdvanceKeepsOrder(s, names, g, outcome);
      case ReadNew(_, _) => TakingKeepsOrder(s, names, step);
      case ClaimStale(_, _) => TakingKeepsOrder(s, names, step);
      case Start(g) => EmptiesHand(s, names, step, g);
      case Stop(g) => EmptiesHand(s, names, step, g);
      case Crash(g) => EmptiesHand(s, names, step, g);
      case MoveLease(_) => SameHands(s, G.Next(s, step), names);
      case ExpireFailures(_) => SameHands(s, G.Next(s, step), names);
    }
  }

  lemma EmptiesHand(s: G.System, names: seq<string>, step: G.Step, g: string)
    requires Ordered(s, names) && Calm(s, names, step) && (step == G.Start(g) || step == G.Stop(g) || step == G.Crash(g))
    ensures Ordered(G.Next(s, step), names)
  {
    var t := G.Next(s, step);
    assert Hand(t.gateways[g]) == [] || Hand(t.gateways[g]) == Hand(s.gateways[g]);
    assert FirstRouted(s.log) + [] == FirstRouted(s.log);
    OneMoves(s, t, names, g);
  }

  lemma SameHands(s: G.System, t: G.System, names: seq<string>)
    requires Ordered(s, names) && t.gateways == s.gateways && t.pending == s.pending && FirstRouted(t.log) == FirstRouted(s.log)
    ensures Ordered(t, names)
  {
    forall m | m in t.pending && Held(s, m) ensures Held(t, m) {}
  }

  lemma PublishKeepsOrder(s: G.System, names: seq<string>, name: string)
    requires Ordered(s, names) && name !in names
    ensures Ordered(s, names + [name])
  {
    var routed := FirstRouted(s.log);
    forall g | g in s.gateways ensures InOrder(routed, names + [name], Hand(s.gateways[g])) {
      assert InOrder(routed, names, Hand(s.gateways[g]));
    }
  }

  /** Gateways not started yet, with nothing delivered. */
  lemma InitialOrder(s: G.System)
    requires G.Initial(s)
    ensures Ordered(s, [])
  {}

  ghost predicate CalmRun(s: G.System, names: seq<string>, steps: seq<G.Step>)
    decreases |steps|
  {
    steps == [] || (Calm(s, names, steps[0]) && CalmRun(G.Next(s, steps[0]), names, steps[1..]))
  }

  /** So over whole calm runs the messages are first routed in the order of the stream, none left out. */
  lemma {:induction false} CalmRunRoutesInOrder(s: G.System, names: seq<string>, steps: seq<G.Step>)
    requires Ordered(s, names) && CalmRun(s, names, steps)
    ensures G.ValidRun(s, steps) && Ordered(G.Run(s, steps), names) && FirstRouted(G.Run(s, steps).log) <= names
    decreases |steps|
  {
    if steps != [] {
      StepKeepsOrder(s, names, steps[0]);
      CalmRunRoutesInOrder(G.Next(s, steps[0]), names, steps[1..]);
    }
  }

  // --- One holder without failures.

  /** Only messages routed before have lost their bodies. */
  predicate BodiesIntact(gateway: G.Gateway, routed: seq<string>) {
    && (gateway.at.Entering? && !gateway.at.body ==> gateway.at.m in routed)
    && (forall x :: x in gateway.rest && !x.body ==> x.id in routed)
    && (gateway.at.Polling? || gateway.at.Reading? ==> gateway.rest == [])
  }

  /** Gateway `g` holds the lease, and no other has messages in hand. */
  predicate Undisturbed(s: G.System, g: string) {
    && G.Owns(s, g) && g in s.gateways && s.gateways[g].running && BodiesIntact(s.gateways[g], FirstRouted(s.log))
    && forall h :: h in s.gateways && h != g ==> Hand(s.gateways[h]) == []
  }

  /** No call raises, and new messages arrive in order and whole. */
  predicate Smooth(s: G.System, names: seq<string>, g: string, step: G.Step) {
    match step
    case Advance(h, outcome) => h == g && outcome == G.Done
    case ReadNew(h, messages) => h == g && NextInStream(s, names, g, messages) && forall x :: x in messages ==> x.body
    case ClaimStale(h, _) => h == g
    case ExpireFailures(_) => true
    case _ => false
  }

  /** Smooth are the calls of `g` that end normally, what it claims, and what it reads in order and whole; a
      gateway that has the lease to itself and nothing in hand is undisturbed. */
  lemma SmoothCases(s: G.System, names: seq<string>, g: string, messages: seq<G.Message>)
    ensures Smooth(s, names, g, G.Advance(g, G.Done)) && Smooth(s, names, g, G.ClaimStale(g, messages))
    ensures forall m :: Smooth(s, names, g, G.ExpireFailures(m))
    ensures (g in s.gateways && s.gateways[g].running && FirstRouted(s.log) + IdList(messages) <= names && forall x :: x in messages ==> x.body)
      ==> Smooth(s, names, g, G.ReadNew(g, messages))
    ensures g in s.gateways && s.gateways[g] == G.Gateway(G.Reading, []) && s.lease == Some(g) && EmptyHands(s) ==> Undisturbed(s, g)
  {}

  /** Then every step is calm: with one holder of the lease and no failure, no crash and no stop, messages are
      first routed in stream order. */
  lemma SmoothIsCalm(s: G.System, names: seq<string>, g: string, step: G.Step)
    requires Ordered(s, names) && Undisturbed(s, g) && Smooth(s, names, g, step) && G.Enabled(s, step)
    ensures Calm(s, names, step) && Undisturbed(G.Next(s, step), g)
  {
    FirstAfter(s, step);
    match step {
      case Advance(_, _) => SmoothCall(s, g);
      case ReadNew(_, messages) => SmoothTaking(s, g, step, messages);
      case ClaimStale(_, messages) =>
        SmoothTaking(s, g, step, messages);
        forall x | x in messages ensures x.id in FirstRouted(s.log) {
          assert x.id in s.pending && !Held(s, x.id);
        }
      case _ =>
    }
  }

  lemma SmoothTaking(s: G.System, g: string, step: G.Step, messages: seq<G.Message>)
    requires Undisturbed(s, g) && G.Enabled(s, step) && (step == G.ReadNew(g, messages) || step == G.ClaimStale(g, messages))
    ensures var t := G.Next(s, step);
      && DropsNothing(s, t) && t.lease == s.lease && t.log == s.log
      && t.gateways == s.gateways[g := G.NextMessage(s.gateways[g].(rest := messages))]
      && EmptyHands(s)
  {
    TakenHand(s.gateways[g], messages);
  }

  lemma SmoothCall(s: G.System, g: string)
    requires Undisturbed(s, g) && G.Enabled(s, G.Advance(g, G.Done))
    ensures var t := G.Next(s, G.Advance(g, G.Done)); DropsNothing(s, t) && Undisturbed(t, g)
  {
    var t := G.Next(s, G.Advance(g, G.Done));
    var routed, hand := FirstRouted(s.log), Hand(s.gateways[g]);
    FirstAfter(s, G.Advance(g, G.Done));
    HandAfterCall(s, g, G.Done);
    G.EffectMovesNobody(s, g);
    EffectKeepsLease(s, g);
    StaysWhole(s, g, routed, FirstRouted(t.log));
    forall m | m in hand ensures m in Hand(t.gateways[g]) || m in FirstRouted(t.log) {
      HandLeaves(s, g, m);
    }
  }

  lemma EffectKeepsLease(s: G.System, g: string)
    requires g in s.gateways
    ensures G.Effect(s, g).lease == s.lease
  {}

  lemma StaysWhole(s: G.System, g: string, routed: seq<string>, after: seq<string>)
    requires Undisturbed(s, g) && G.Enabled(s, G.Advance(g, G.Done)) && BodiesIntact(s.gateways[g], routed) && routed <= after
    ensures BodiesIntact(G.Moved(s, g), after) && G.Moved(s, g).running
  {
    forall m | m in routed ensures m in after { StillIn(routed, after, m); }
  }

  /** With the lease held a message leaves the hand by being routed, or without a body. */
  lemma HandLeaves(s: G.System, g: string, m: string)
    requires Undisturbed(s, g) && G.Enabled(s, G.Advance(g, G.Done)) && m in Hand(s.gateways[g])
    ensures m in Hand(G.Moved(s, g)) || m in FirstRouted(s.log) || RoutesNow(s, G.Advance(g, G.Done)) == Some(m)
  {}

  ghost predicate SmoothRun(s: G.System, names: seq<string>, g: string, steps: seq<G.Step>)
    decreases |steps|
  {
    steps == [] ||
      (G.Enabled(s, steps[0]) && Smooth(s, names, g, steps[0]) && SmoothRun(G.Next(s, steps[0]), names, g, steps[1..]))
  }

  lemma {:induction false} SmoothRunIsCalm(s: G.System, names: seq<string>, g: string, steps: seq<G.Step>)
    requires Ordered(s, names) && Undisturbed(s, g) && SmoothRun(s, names, g, steps)
    ensures CalmRun(s, names, steps)
    decreases |steps|
  {
    if steps != [] {
      SmoothIsCalm(s, names, g, steps[0]);
      StepKeepsOrder(s, names, steps[0]);
      SmoothRunIsCalm(G.Next(s, steps[0]), names, g, steps[1..]);
    }
  }

  /** One failure is enough to lose the order: the holder of the lease counts it and turns to the next message
      of its batch, which is routed first. */
  lemma FailureReorders(s: G.System, g: string, a: string, b: string)
    requires G.Owns(s, g) && g in s.gateways && s.gateways[g] == G.Gateway(G.Routing(a), [G.Message(b, true)])
    requires a !in FirstRouted(s.log) && b !in FirstRouted(s.log) && a != b && G.Count(s.failures, a) + 1 < G.MAX_FAILURES
    ensures var raised := [G.Advance(g, G.Raises), G.Advance(g, G.Done), G.Advance(g, G.Done)];
      var on := [G.Advance(g, G.Done), G.Advance(g, G.Done), G.Advance(g, G.Done)];
      && G.ValidRun(s, raised + on)
      && FirstRouted(G.Run(s, raised + on).log) == FirstRouted(s.log) + [b]
  {
    var raised := [G.Advance(g, G.Raises), G.Advance(g, G.Done), G.Advance(g, G.Done)];
    var next := FailureMovesOn(s, g, a, b);
    RoutesWhatItEntered(next, g, b);
    G.RunConcat(s, raised, [G.Advance(g, G.Done), G.Advance(g, G.Done), G.Advance(g, G.Done)]);
  }

  lemma FailureMovesOn(s: G.System, g: string, a: string, b: string) returns (t: G.System)
    requires G.Owns(s, g) && g in s.gateways && s.gateways[g] == G.Gateway(G.Routing(a), [G.Message(b, true)])
    requires G.Count(s.failures, a) + 1 < G.MAX_FAILURES
    ensures var raised := [G.Advance(g, G.Raises), G.Advance(g, G.Done), G.Advance(g, G.Done)];
      G.ValidRun(s, raised) && G.Run(s, raised) == t
    ensures G.Owns(t, g) && g in t.gateways && t.gateways[g] == G.Gateway(G.Entering(b, true), [])
    ensures FirstRouted(t.log) == FirstRouted(s.log)
  {
    var raised := [G.Advance(g, G.Raises), G.Advance(g, G.Done), G.Advance(g, G.Done)];
    var failed := G.Next(s, raised[0]);
    var counting := G.Next(failed, raised[1]);
    t := G.Next(counting, raised[2]);
    FirstRoutedAppend(s.log, G.Failure(g, a));
    G.ThreeSteps(s, raised, failed, counting, t);
  }

  lemma RoutesWhatItEntered(s: G.System, g: string, b: string)
    requires G.Owns(s, g) && g in s.gateways && s.gateways[g] == G.Gateway(G.Entering(b, true), []) && b !in FirstRouted(s.log)
    ensures var on := [G.Advance(g, G.Done), G.Advance(g, G.Done), G.Advance(g, G.Done)];
      G.ValidRun(s, on) && FirstRouted(G.Run(s, on).log) == FirstRouted(s.log) + [b]
  {
    var step := G.Advance(g, G.Done);
    var checking, routing := G.Put(s, g, G.Gateway(G.Checking(b), [])), G.Put(s, g, G.Gateway(G.Routing(b), []));
    EntersRouting(s, g, b);
    G.RoutesAndMoves(routing, g, b);
    FirstRoutedAppend(s.log, G.Routed(g, b));
    G.ThreeCalls(s, g, checking, routing, G.Next(routing, step));
  }

  lemma EntersRouting(s: G.System, g: string, b: string)
    requires G.Owns(s, g) && g in s.gateways && s.gateways[g] == G.Gateway(G.Entering(b, true), [])
    ensures var checking := G.Put(s, g, G.Gateway(G.Checking(b), []));
      && G.Next(s, G.Advance(g, G.Done)) == checking
      && G.Next(checking, G.Advance(g, G.Done)) == G.Put(s, g, G.Gateway(G.Routing(b), []))
  {
    assert s.gateways[g := G.Gateway(G.Checking(b), [])][g := G.Gateway(G.Routing(b), [])] == s.gateways[g := G.Gateway(G.Routing(b), [])];
  }

  // --- Together with one client's connection.

  /** `names[i]` is the message id of `client.stream[i]`; `home` is the gateway the client is connected to. */
  datatype Joint = Joint(gateways: G.System, names: seq<string>, home: string, client: D.System)

  datatype JointStep =
    | Publish(name: string, event: Envelope)
    | Consume(call: G.Step)
    | Client(own: D.Step)

  function IndexOf(names: seq<string>, m: string): (i: nat)
    requires m in names
    ensures i < |names| && names[i] == m
  {
    if names[0] == m then 0 else 1 + IndexOf(names[1..], m)
  }

  /** The client's gateway delivers what it routes to the connection, whatever came before it. */
  function JointNext(j: Joint, step: JointStep, limits: Limits): Joint {
    match step
    case Publish(name, e) => j.(names := j.names + [name], client := j.client.(stream := j.client.stream + [e]))
    case Client(d) => j.(client := D.Next(j.client, d, limits))
    case Consume(k) =>
      if !G.Enabled(j.gateways, k) then j
      else
        var gateways, m := G.Next(j.gateways, k), RoutesNow(j.gateways, k);
        if m.None? || m.value !in j.names || |j.names| != |j.client.stream| then j.(gateways := gateways)
        else
          var e := j.client.stream[IndexOf(j.names, m.value)];
          j.(gateways := gateways,
             client := j.client.(position := |FirstRouted(gateways.log)|,
                                 session := if k.g == j.home then Deliver(j.client.session, e, limits).0 else j.client.session))
  }

  /** What the step is for the client: the next routing of the stream, a repeated one, or its own step. */
  function AsDelivery(j: Joint, step: JointStep): seq<D.Step> {
    match step
    case Publish(_, e) => [D.Publish(e)]
    case Client(d) => [d]
    case Consume(k) =>
      var m := RoutesNow(j.gateways, k);
      if m.None? || m.value !in j.names then []
      else if m.value in FirstRouted(j.gateways.log) then [D.Redeliver(IndexOf(j.names, m.value))] else [D.RouteNext]
  }

  predicate OwnStep(step: D.Step) {
    !step.Publish? && !step.RouteNext? && !step.Redeliver?
  }

  /** Calm consumption by the client's gateway, a stream that grows at its end, and repeated routings outside
      the time between the cursor and the snapshot, as far as they matter to it. */
  ghost predicate JointEnabled(j: Joint, step: JointStep) {
    match step
    case Publish(name, e) => name !in j.names && D.Enabled(j.client, D.Publish(e))
    case Client(d) => OwnStep(d) && D.Enabled(j.client, d)
    case Consume(k) =>
      && Calm(j.gateways, j.names, k)
      && var m := RoutesNow(j.gateways, k);
         m.None? || (k.g == j.home &&
           (m.value in FirstRouted(j.gateways.log) && m.value in j.names ==> D.SafeRedelivery(j.client, IndexOf(j.names, m.value))))
  }

  /** The client's position in the stream is what the gateways have routed. */
  ghost predicate Coherent(j: Joint) {
    && Ordered(j.gateways, j.names) && |j.names| == |j.client.stream|
    && j.client.position == |FirstRouted(j.gateways.log)|
  }

  /** The client's own steps are as free as they are by themselves. */
  lemma ClientActsFreely(j: Joint, d: D.Step)
    requires D.Enabled(j.client, d)
    requires d.BeginSubscribe? || d.ReadCursor? || d.Finish? || d.Drop? || d.Control? || d.SendOne? || d.CloseConnection?
    ensures JointEnabled(j, Client(d))
  {}

  /** What is routed for the first time is the next message of the stream. */
  lemma RoutesNext(j: Joint, k: G.Step)
    requires Coherent(j) && Calm(j.gateways, j.names, k) && RoutesNow(j.gateways, k).Some?
    ensures var m, routed := RoutesNow(j.gateways, k).value, FirstRouted(j.gateways.log);
      && m in j.names
      && (m !in routed ==> |routed| < |j.names| && IndexOf(j.names, m) == |routed|
                           && FirstRouted(G.Next(j.gateways, k).log) == routed + [m])
      && (m in routed ==> IndexOf(j.names, m) < |routed| && FirstRouted(G.Next(j.gateways, k).log) == routed)
  {
    var m, routed, hand := RoutesNow(j.gateways, k).value, FirstRouted(j.gateways.log), Hand(j.gateways.gateways[k.g]);
    FirstAfter(j.gateways, k);
    HandAfterCall(j.gateways, k.g, k.outcome);
    TakesFirst(routed, j.names, hand);
    if m in routed {
      var i :| 0 <= i < |routed| && routed[i] == m;
      assert j.names[i] == m;
    } else {
      assert (routed + [m])[|routed|] == m && j.names[|routed|] == m;
    }
  }

  /** Each step of both is a step of the connection against the stream, or none. */
  lemma StepIsDelivery(j: Joint, step: JointStep, limits: Limits)
    requires Coherent(j) && JointEnabled(j, step)
    ensures var t, steps := JointNext(j, step, limits), AsDelivery(j, step);
      && Coherent(t) && D.ValidRun(j.client, steps, limits) && D.Run(j.client, steps, limits) == t.client
      && t.gateways == (if step.Consume? then G.Next(j.gateways, step.call) else j.gateways)
      && t.names == (if step.Publish? then j.names + [step.name] else j.names) && t.home == j.home
  {
    match step {
      case Publish(name, e) =>
        PublishKeepsOrder(j.gateways, j.names, name);
        OneDelivery(j.client, D.Publish(e), limits);
      case Client(d) =>
        OneDelivery(j.client, d, limits);
      case Consume(k) =>
        StepKeepsOrder(j.gateways, j.names, k);
        FirstAfter(j.gateways, k);
        if RoutesNow(j.gateways, k).Some? {
          RoutesNext(j, k);
          OneDelivery(j.client, AsDelivery(j, step)[0], limits);
        }
    }
  }

  lemma OneDelivery(s: D.System, d: D.Step, limits: Limits)
    requires D.Enabled(s, d)
    ensures D.ValidRun(s, [d], limits) && D.Run(s, [d], limits) == D.Next(s, d, limits)
  {
    assert [d][1..] == [];
    assert D.ValidRun(D.Next(s, d, limits), [], limits);
  }

  // --- Whole runs.

  ghost predicate ValidRun(j: Joint, steps: seq<JointStep>, limits: Limits)
    decreases |steps|
  {
    steps == [] || (JointEnabled(j, steps[0]) && ValidRun(JointNext(j, steps[0], limits), steps[1..], limits))
  }

  function Run(j: Joint, steps: seq<JointStep>, limits: Limits): Joint
    decreases |steps|
  {
    if steps == [] then j else Run(JointNext(j, steps[0], limits), steps[1..], limits)
  }

  function AsDeliveries(j: Joint, steps: seq<JointStep>, limits: Limits): seq<D.Step>
    decreases |steps|
  {
    if steps == [] then [] else AsDelivery(j, steps[0]) + AsDeliveries(JointNext(j, steps[0], limits), steps[1..], limits)
  }

  /** What the connection sees of the consumer is a run of its own system: the routings it assumes to come in
      stream order do. */
  lemma {:induction false} RunIsDelivery(j: Joint, steps: seq<JointStep>, limits: Limits)
    requires Coherent(j) && ValidRun(j, steps, limits)
    ensures var own := AsDeliveries(j, steps, limits);
      Coherent(Run(j, steps, limits)) && D.ValidRun(j.client, own, limits) && D.Run(j.client, own, limits) == Run(j, steps, limits).client
    decreases |steps|
  {
    if steps != [] {
      var t := JointNext(j, steps[0], limits);
      StepIsDelivery(j, steps[0], limits);
      RunIsDelivery(t, steps[1..], limits);
      DeliveriesConcat(j.client, AsDelivery(j, steps[0]), AsDeliveries(t, steps[1..], limits), limits);
    }
  }

  lemma {:induction false} DeliveriesConcat(s: D.System, a: seq<D.Step>, b: seq<D.Step>, limits: Limits)
    requires D.ValidRun(s, a, limits) && D.ValidRun(D.Run(s, a, limits), b, limits)
    ensures D.ValidRun(s, a + b, limits) && D.Run(s, a + b, limits) == D.Run(D.Run(s, a, limits), b, limits)
    decreases |a|
  {
    if a == [] {
      assert a + b == b;
    } else {
      assert (a + b)[1..] == a[1..] + b;
      DeliveriesConcat(D.Next(s, a[0], limits), a[1..], b, limits);
    }
  }

  /** Any point of a calm consumption is such a start. */
  lemma RegisteredAnywhere(s: G.System, names: seq<string>, home: string, stream: seq<Envelope>)
    requires Ordered(s, names) && |stream| == |names| && Increasing(stream)
    ensures var client := D.System(stream, |FirstRouted(s.log)|, D.Idle, FRESH, []);
      Coherent(Joint(s, names, home, client)) && D.Initial(client)
  {}

  /** A client registered at its gateway at any point of a calm consumption: after any further run of
      publishing, consuming and its own requests, an account of the open connection that is not loading has
      been sent a snapshot and then exactly the events the gateways have routed past it, each once and in
      stream order; and those are the first messages of the stream, without a gap. */
  lemma ConsumedDeliveryIsExact(start: Joint, steps: seq<JointStep>, limits: Limits, a: string)
    requires Coherent(start) && D.Initial(start.client) && ValidRun(start, steps, limits)
    ensures var t := Run(start, steps, limits);
      var s, routed := t.client, FirstRouted(t.gateways.log);
      && routed <= t.names && |t.names| == |s.stream| && s.position == |routed|
      && (!s.session.closing && a in s.session.subscribed && a !in s.session.loading ==>
            var view := Seen(D.Out(s), a);
            && view.snapshot.Some?
            && view.events == Select(s.stream[..|routed|], a, view.snapshot.value)
            && Increasing(view.events))
  {
    RunIsDelivery(start, steps, limits);
    D.DeliveryIsExact(start.client, AsDeliveries(start, steps, limits), limits, a);
  }
}

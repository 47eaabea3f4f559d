/** One client connection against the realtime Stream: publishers, consumer, the connection's handler and
    sender take interleaved steps, and it may close at any moment. */
module DeliverySystem {
  import opened Options
  import opened StreamOrder
  import opened Delivery

  /** Where the connection's handler stands; it serves one request at a time. */
  datatype Phase =
    | Idle
    | RoutesAdded(targets: set<string>)
    | CursorRead(targets: set<string>, cursor: StreamId)

  /** `position` counts the stream entries the consumer has routed in order; `sent` is what the sender
      task has handed to the socket. */
  datatype System = System(stream: seq<Envelope>, position: nat, phase: Phase, session: Session, sent: seq<Frame>)

  datatype Step =
    | Publish(event: Envelope)
    | RouteNext
    | Redeliver(index: nat)
    | BeginSubscribe(accounts: set<string>)
    | ReadCursor
    | Finish(order: seq<string>, body: string)
    | Drop(accounts: set<string>)
    | Control(text: string)
    | SendOne
    | CloseConnection

  function Tail(stream: seq<Envelope>): StreamId {
    if stream == [] then ORIGIN else stream[|stream| - 1].version
  }

  /** Everything the client was or will be sent, if the connection stays open. */
  function Out(s: System): seq<Frame> {
    s.sent + s.session.queue
  }

  /** A message already routed may be routed again (its acknowledgement failed) at any time but one:
      between the cursor being read and the snapshot being finished, if it is newer than the cursor. */
  predicate SafeRedelivery(s: System, index: nat) {
    && index < s.position <= |s.stream|
    && (s.phase.CursorRead? && s.stream[index].accountId in s.session.loading ==>
          AtMost(s.stream[index].version, s.phase.cursor))
  }

  ghost predicate Enabled(s: System, step: Step) {
    match step
    case Publish(e) => s.stream != [] ==> Less(Tail(s.stream), e.version)
    case RouteNext => s.position < |s.stream|
    case Redeliver(i) => SafeRedelivery(s, i)
    case BeginSubscribe(accounts) => s.phase.Idle? && "" !in accounts
    case ReadCursor => s.phase.RoutesAdded?
    case Finish(order, _) => s.phase.CursorRead? && NoRepeats(order) && (set a | a in order) == s.phase.targets
    case Drop(_) => s.phase.Idle?
    case SendOne => s.session.queue != []
    case _ => true
  }

  function Next(s: System, step: Step, limits: Limits): System {
    match step
    case Publish(e) => s.(stream := s.stream + [e])
    case RouteNext =>
      if s.position < |s.stream| then
        s.(position := s.position + 1, session := Deliver(s.session, s.stream[s.position], limits).0)
      else s
    case Redeliver(i) =>
      if i < |s.stream| then s.(session := Deliver(s.session, s.stream[i], limits).0) else s
    case BeginSubscribe(accounts) =>
      s.(phase := RoutesAdded(accounts), session := Subscribe(s.session, accounts, true))
    case ReadCursor =>
      if s.phase.RoutesAdded? then s.(phase := CursorRead(s.phase.targets, Tail(s.stream))) else s
    case Finish(order, body) =>
      if s.phase.CursorRead? then
        var snapshot := SnapshotFrame(s.phase.targets, s.phase.cursor, body);
        s.(phase := Idle, session := FinishSnapshot(s.session, order, s.phase.cursor, snapshot, limits))
      else s
    case Drop(accounts) => s.(session := Unsubscribe(s.session, accounts))
    case Control(text) => s.(session := Enqueue(s.session, ControlFrame(text), limits).0)
    case SendOne =>
      if s.session.queue != [] then
        s.(sent := s.sent + [s.session.queue[0]], session := s.session.(queue := s.session.queue[1..]))
      else s
    case CloseConnection => s.(session := Delivery.Close(s.session))
  }

  ghost predicate ValidRun(s: System, steps: seq<Step>, limits: Limits)
    decreases |steps|
  {
    steps == [] || (Enabled(s, steps[0]) && ValidRun(Next(s, steps[0], limits), steps[1..], limits))
  }

  function Run(s: System, steps: seq<Step>, limits: Limits): System
    decreases |steps|
  {
    if steps == [] then s else Run(Next(s, steps[0], limits), steps[1..], limits)
  }

  /** A connection just registered, at any point of the stream and of its consumption. */
  ghost predicate Initial(s: System) {
    Increasing(s.stream) && s.position <= |s.stream| && s.phase.Idle? && s.session == FRESH && s.sent == []
  }

  // --- The invariant.

  /** The routed part of the stream. */
  function Routed(s: System): seq<Envelope>
    requires s.position <= |s.stream|
  {
    s.stream[..s.position]
  }

  /** The client has a snapshot at some cursor and then exactly the routed events of the account past
      that cursor, and the connection remembers the newest of them. */
  ghost predicate Faithful(view: View, routed: seq<Envelope>, last: map<string, StreamId>, a: string) {
    && view.snapshot.Some?
    && view.events == Select(routed, a, view.snapshot.value)
    && a in last
    && last[a] == Newest(view.snapshot.value, view.events)
  }

  ghost predicate Live(s: System, a: string) {
    s.position <= |s.stream| && Faithful(Seen(Out(s), a), Routed(s), s.session.last, a)
  }

  /** An account whose snapshot is loading: before the cursor is read everything buffered is already in
      the stream; after it, the buffered events past the cursor are exactly the routed ones. */
  ghost predicate Loading(s: System, a: string) {
    && s.position <= |s.stream|
    && a in s.session.buffers
    && OwnEvents(s.session.buffers[a], a)
    && !s.phase.Idle?
    && (s.phase.RoutesAdded? ==> forall e :: e in s.session.buffers[a] ==> AtMost(e.version, Tail(s.stream)))
    && (s.phase.CursorRead? ==>
          Above(s.session.buffers[a], s.phase.cursor) == Select(Routed(s), a, s.phase.cursor))
  }

  ghost predicate AccountInv(s: System, a: string) {
    && s.position <= |s.stream|
    && (a in s.session.loading ==> a in s.session.subscribed)
    && (a in s.session.buffers <==> a in s.session.loading)
    && (a in s.session.loading <==> !s.phase.Idle? && a in s.phase.targets)
    && (a in s.session.subscribed ==> if a in s.session.loading then Loading(s, a) else Live(s, a))
  }

  ghost predicate Inv(s: System) {
    && Increasing(s.stream)
    && s.position <= |s.stream|
    && (if s.session.closing then s.session.queue == [] else forall a :: AccountInv(s, a))
  }

  // --- Streams.

  lemma TailIsNewest(stream: seq<Envelope>)
    requires Increasing(stream)
    ensures forall e :: e in stream ==> AtMost(e.version, Tail(stream))
  {}

  /** In an increasing stream no event of a routed prefix is newer than the newest selected one. */
  lemma RoutedIsRemembered(routed: seq<Envelope>, a: string, c: StreamId, e: Envelope)
    requires Increasing(routed) && e in routed && e.accountId == a
    ensures AtMost(e.version, Newest(c, Select(routed, a, c)))
  {
    SelectContains(routed, a, c, e);
    SelectIncreasing(routed, a, c);
    var chosen := Select(routed, a, c);
    if chosen != [] {
      SelectContains(routed, a, c, chosen[|chosen| - 1]);
    }
  }

  /** The next event of the account is accepted exactly when it is past the snapshot's cursor. */
  lemma NextIsAcceptedIff(routed: seq<Envelope>, e: Envelope, a: string, c: StreamId)
    requires Increasing(routed + [e])
    ensures Less(Newest(c, Select(routed, a, c)), e.version) <==> Less(c, e.version)
  {
    var chosen := Select(routed, a, c);
    if chosen != [] {
      var z := chosen[|chosen| - 1];
      SelectContains(routed, a, c, z);
      var i :| 0 <= i < |routed| && routed[i] == z;
      var all := routed + [e];
      assert Less(all[i].version, all[|routed|].version);
    }
  }

  // --- Steps, one account at a time.

  lemma DeliverKeeps(s: System, index: nat, t: System, limits: Limits, a: string)
    requires Inv(s) && !s.session.closing && AccountInv(s, a)
    requires index < |s.stream|
    requires t == s.(position := t.position, session := Deliver(s.session, s.stream[index], limits).0)
    requires (index == s.position && t.position == index + 1) || (t.position == s.position && SafeRedelivery(s, index))
    ensures !t.session.closing ==> AccountInv(t, a)
  {
    var e := s.stream[index];
    assert index == s.position ==> Routed(t) == Routed(s) + [e];
    if !t.session.closing && a in s.session.subscribed {
      if a in s.session.loading {
        DeliverKeepsLoading(s, index, t, limits, a);
      } else {
        DeliverKeepsLive(s, index, t, limits, a);
      }
    }
  }

  /** A routed event joins the buffer of its account while the snapshot loads. */
  lemma LoadingBuffers(s: Session, e: Envelope, limits: Limits, a: string)
    requires !s.closing && a in s.subscribed && a in s.loading && a in s.buffers
    ensures var t := Deliver(s, e, limits).0;
      t.closing || (a in t.buffers && t.buffers[a] == if e.accountId == a then s.buffers[a] + [e] else s.buffers[a])
  {}

  lemma DeliverKeepsLoading(s: System, index: nat, t: System, limits: Limits, a: string)
    requires Increasing(s.stream) && s.position <= |s.stream| && !s.session.closing && AccountInv(s, a)
    requires index < |s.stream| && a in s.session.loading
    requires t == s.(position := t.position, session := Deliver(s.session, s.stream[index], limits).0)
    requires (index == s.position && t.position == index + 1 && Routed(t) == Routed(s) + [s.stream[index]])
          || (t.position == s.position && SafeRedelivery(s, index))
    requires !t.session.closing
    ensures a in t.session.buffers && Loading(t, a)
  {
    var e := s.stream[index];
    LoadingBuffers(s.session, e, limits, a);
    if s.phase.CursorRead? {
      SelectAppend(Routed(s), e, a, s.phase.cursor);
      AboveAppend(s.session.buffers[a], e, s.phase.cursor);
    } else {
      TailIsNewest(s.stream);
      assert e in s.stream;
    }
  }

  lemma DeliverKeepsLive(s: System, index: nat, t: System, limits: Limits, a: string)
    requires Increasing(s.stream) && s.position <= |s.stream| && !s.session.closing && Live(s, a)
    requires index < |s.stream| && a in s.session.subscribed && a !in s.session.loading
    requires t == s.(position := t.position, session := Deliver(s.session, s.stream[index], limits).0)
    requires (index == s.position && t.position == index + 1 && Routed(t) == Routed(s) + [s.stream[index]])
          || (t.position == s.position && SafeRedelivery(s, index))
    requires !t.session.closing
    ensures Live(t, a)
  {
    var e := s.stream[index];
    QueueingIsSeen(s, t, EventFrame(e), a);
    if index == s.position {
      assert Increasing(Routed(s) + [e]) by {
        assert Routed(s) + [e] == s.stream[..index + 1];
      }
      FaithfulNext(Seen(Out(s), a), Routed(s), s.session.last, a, e);
    } else if e.accountId == a {
      assert Routed(s)[index] == e;
      RoutedIsRemembered(Routed(s), a, Seen(Out(s), a).snapshot.value, e);
    }
  }

  lemma FaithfulNext(view: View, routed: seq<Envelope>, last: map<string, StreamId>, a: string, e: Envelope)
    requires Faithful(view, routed, last, a) && Increasing(routed + [e])
    ensures e.accountId != a ==> Faithful(view, routed + [e], last, a)
    ensures e.accountId == a && AtMost(e.version, last[a]) ==> Faithful(view, routed + [e], last, a)
    ensures e.accountId == a && Less(last[a], e.version) ==>
              Faithful(view.(events := view.events + [e]), routed + [e], last[a := e.version], a)
  {
    SelectAppend(routed, e, a, view.snapshot.value);
    NextIsAcceptedIff(routed, e, a, view.snapshot.value);
  }

  /** What one more queued frame, or none, means for the client. */
  lemma QueueingIsSeen(s: System, t: System, f: Frame, a: string)
    requires s.sent == t.sent
    ensures t.session.queue == s.session.queue + [f] ==> Seen(Out(t), a) == SeenNext(Seen(Out(s), a), f, a)
    ensures t.session.queue == s.session.queue ==> Seen(Out(t), a) == Seen(Out(s), a)
  {
    if t.session.queue == s.session.queue + [f] {
      assert Out(t) == Out(s) + [f];
      SeenAppend(Out(s), f, a);
    }
  }

  lemma FinishKeeps(s: System, order: seq<string>, body: string, limits: Limits, a: string)
    requires Inv(s) && !s.session.closing && Enabled(s, Finish(order, body))
    ensures var t := Next(s, Finish(order, body), limits); !t.session.closing ==> AccountInv(t, a)
  {
    var t := Next(s, Finish(order, body), limits);
    var cursor := s.phase.cursor;
    var snapshot := SnapshotFrame(s.phase.targets, cursor, body);
    var u := Enqueue(s.session, snapshot, limits).0;
    if !t.session.closing {
      assert AccountInv(s, a);
      assert a in s.phase.targets <==> a in order;
      BuffersAreOwn(s);
      FlushAccountsFor(u, order, cursor, limits, a);
      if a in order {
        var buffered := s.session.buffers[a];
        AboveOfSort(buffered, cursor);
        SelectIncreasing(Routed(s), a, cursor);
        SortOfSorted(Above(buffered, cursor));
        assert Owed(u, a, cursor) == Select(Routed(s), a, cursor);
      }
      FinishView(s, order, body, limits, a);
    }
  }

  /** What the client of `a` has after a finished snapshot, if the connection survived the flush. */
  lemma FinishView(s: System, order: seq<string>, body: string, limits: Limits, a: string)
    requires s.phase.CursorRead? && NoRepeats(order) && s.phase.targets == (set x | x in order)
    requires OwnBuffers(s.session)
    ensures var t := Next(s, Finish(order, body), limits);
      var cursor := s.phase.cursor;
      !t.session.closing ==>
        Seen(Out(t), a) == if a in order then View(Some(cursor), Owed(s.session, a, cursor)) else Seen(Out(s), a)
  {
    var t := Next(s, Finish(order, body), limits);
    var cursor := s.phase.cursor;
    var snapshot := SnapshotFrame(s.phase.targets, cursor, body);
    var u := Enqueue(s.session, snapshot, limits).0;
    if !t.session.closing {
      FlushAccountsFor(u, order, cursor, limits, a);
      FlushAccountsQueues(u, order, cursor, limits);
      FinishIsSeen(s.sent, s.session.queue, snapshot, u, order, cursor, a);
    }
  }

  lemma BuffersAreOwn(s: System)
    requires Inv(s) && !s.session.closing
    ensures OwnBuffers(s.session)
  {
    forall b | b in s.session.buffers ensures OwnEvents(s.session.buffers[b], b) {
      assert AccountInv(s, b);
    }
  }

  /** The snapshot and the flush after it, as the client of `a` sees them. */
  lemma FinishIsSeen(sent: seq<Frame>, queue: seq<Frame>, snapshot: Frame, u: Session, order: seq<string>, cursor: StreamId, a: string)
    requires OwnBuffers(u) && NoRepeats(order)
    requires snapshot.SnapshotFrame? && snapshot.cursor == cursor && (a in snapshot.accounts <==> a in order)
    ensures Seen(sent + ((queue + [snapshot]) + FlushFrames(u, order, cursor)), a)
         == if a in order then View(Some(cursor), Owed(u, a, cursor)) else Seen(sent + queue, a)
  {
    ConcatAssociates(sent, queue + [snapshot], FlushFrames(u, order, cursor));
    ConcatAssociates(sent, queue, [snapshot]);
    SeenFlushFrames((sent + queue) + [snapshot], u, order, cursor, a);
    SeenAppend(sent + queue, snapshot, a);
    NothingBefore(Owed(u, a, cursor));
  }

  lemma NothingBefore(events: seq<Envelope>)
    ensures [] + events == events
  {
  }

  lemma ReadCursorKeeps(s: System, limits: Limits, a: string)
    requires Inv(s) && !s.session.closing && s.phase.RoutesAdded? && AccountInv(s, a)
    ensures AccountInv(Next(s, ReadCursor, limits), a)
  {
    if a in s.session.loading {
      var c := Tail(s.stream);
      TailIsNewest(s.stream);
      SelectNothing(Routed(s), a, c);
      var kept := Above(s.session.buffers[a], c);
      if kept != [] {
        AboveContains(s.session.buffers[a], c, kept[0]);
      }
    }
  }

  lemma PublishKeeps(s: System, e: Envelope, limits: Limits, a: string)
    requires Inv(s) && !s.session.closing && Enabled(s, Publish(e)) && AccountInv(s, a)
    ensures var t := Next(s, Publish(e), limits); AccountInv(t, a)
  {
    var t := Next(s, Publish(e), limits);
    assert Routed(t) == Routed(s);
    if a in s.session.loading && s.phase.RoutesAdded? && s.stream == [] && s.session.buffers[a] != [] {
      var x := s.session.buffers[a][0];
      assert AtMost(x.version, ORIGIN);
    }
  }

  lemma SendKeeps(s: System, limits: Limits, a: string)
    requires Inv(s) && !s.session.closing && s.session.queue != [] && AccountInv(s, a)
    ensures AccountInv(Next(s, SendOne, limits), a)
  {
    var t := Next(s, SendOne, limits);
    assert s.session.queue == [s.session.queue[0]] + s.session.queue[1..];
    assert Out(t) == Out(s);
  }

  /** Every step of every interleaving keeps the invariant. */
  lemma StepKeepsInvariant(s: System, step: Step, limits: Limits)
    requires Inv(s) && Enabled(s, step)
    ensures Inv(Next(s, step, limits))
  {
    var t := Next(s, step, limits);
    ClosedStaysClosed(s, step, limits);
    assert Increasing(t.stream);
    if !t.session.closing {
      forall a ensures AccountInv(t, a) {
        assert AccountInv(s, a);
        match step
        case Publish(e) => PublishKeeps(s, e, limits, a);
        case RouteNext => DeliverKeeps(s, s.position, t, limits, a);
        case Redeliver(i) => DeliverKeeps(s, i, t, limits, a);
        case ReadCursor => ReadCursorKeeps(s, limits, a);
        case Finish(order, body) => FinishKeeps(s, order, body, limits, a);
        case Control(text) => QueueingIsSeen(s, t, ControlFrame(text), a);
        case SendOne => SendKeeps(s, limits, a);
        case _ =>
      }
    }
  }

  lemma ClosedStaysClosed(s: System, step: Step, limits: Limits)
    requires Inv(s)
    ensures var t := Next(s, step, limits);
      && (s.session.closing ==> t.session.closing && t.sent == s.sent)
      && (t.session.closing ==> t.session.queue == [])
  {
    if step.Finish? && s.phase.CursorRead? && !s.session.closing {
      var snapshot := SnapshotFrame(s.phase.targets, s.phase.cursor, step.body);
      FlushAccountsClosesEmpty(Enqueue(s.session, snapshot, limits).0, step.order, s.phase.cursor, limits);
    }
  }

  lemma {:induction false} FlushAccountsClosesEmpty(s: Session, accounts: seq<string>, cursor: StreamId, limits: Limits)
    requires s.closing ==> s.queue == []
    ensures var t := FlushAccounts(s, accounts, cursor, limits); t.closing ==> t.queue == []
  {
    if accounts != [] {
      FlushAccountsClosesEmpty(s, accounts[..|accounts| - 1], cursor, limits);
      var p := FlushAccounts(s, accounts[..|accounts| - 1], cursor, limits);
      var a := accounts[|accounts| - 1];
      FlushEventsClosesEmpty(StopLoading(p, a, cursor), a, SortByVersion(Buffered(p, a)), cursor, limits);
    }
  }

  lemma {:induction false} FlushEventsClosesEmpty(s: Session, a: string, events: seq<Envelope>, cursor: StreamId, limits: Limits)
    requires s.closing ==> s.queue == []
    ensures var t := FlushEvents(s, a, events, cursor, limits); t.closing ==> t.queue == []
  {
    if events != [] {
      FlushEventsClosesEmpty(s, a, events[..|events| - 1], cursor, limits);
    }
  }

  // --- Whole runs.

  lemma {:induction false} RunKeepsInvariant(s: System, steps: seq<Step>, limits: Limits)
    requires Inv(s) && ValidRun(s, steps, limits)
    ensures Inv(Run(s, steps, limits))
    decreases |steps|
  {
    if steps != [] {
      StepKeepsInvariant(s, steps[0], limits);
      RunKeepsInvariant(Next(s, steps[0], limits), steps[1..], limits);
    }
  }

  /** No loss and no duplicate. After any run, for every account of an open connection that is not
      loading a snapshot, what the client was sent since its last snapshot of the account is exactly
      the routed events of the account past that snapshot's cursor: each once, in stream order. When
      the consumer has caught up, that is every such event of the whole stream. */
  lemma DeliveryIsExact(start: System, steps: seq<Step>, limits: Limits, a: string)
    requires Initial(start) && ValidRun(start, steps, limits)
    ensures var s := Run(start, steps, limits);
      s.position <= |s.stream| && Increasing(s.stream)
    ensures var s := Run(start, steps, limits);
      !s.session.closing && a in s.session.subscribed && a !in s.session.loading ==>
        var view := Seen(Out(s), a);
        && view.snapshot.Some?
        && view.events == Select(Routed(s), a, view.snapshot.value)
        && Increasing(view.events)
        && (s.position == |s.stream| ==> view.events == Select(s.stream, a, view.snapshot.value))
  {
    var s := Run(start, steps, limits);
    RunKeepsInvariant(start, steps, limits);
    if !s.session.closing && a in s.session.subscribed && a !in s.session.loading {
      assert AccountInv(s, a);
      SelectIncreasing(Routed(s), a, Seen(Out(s), a).snapshot.value);
      assert s.position == |s.stream| ==> Routed(s) == s.stream;
    }
  }

  /** Once closed, a connection is sent nothing more, whatever happens next. */
  lemma {:induction false} NothingAfterClose(s: System, steps: seq<Step>, limits: Limits)
    requires Inv(s) && s.session.closing && ValidRun(s, steps, limits)
    ensures Run(s, steps, limits).session.closing
    ensures Out(Run(s, steps, limits)) == s.sent
    decreases |steps|
  {
    if steps != [] {
      StepKeepsInvariant(s, steps[0], limits);
      ClosedStaysClosed(s, steps[0], limits);
      NothingAfterClose(Next(s, steps[0], limits), steps[1..], limits);
    }
  }

  // --- After unsubscribing.

  /** Not subscribed to `a`, nor about to load a snapshot of it. */
  predicate Silent(s: System, a: string) {
    a !in s.session.subscribed && (s.phase.Idle? || a !in s.phase.targets)
  }

  lemma DropSilences(s: System, accounts: set<string>, limits: Limits, a: string)
    requires Enabled(s, Drop(accounts)) && a in accounts
    ensures Silent(Next(s, Drop(accounts), limits), a)
  {}

  lemma StepStaysSilent(s: System, step: Step, limits: Limits, a: string)
    requires Inv(s) && !s.session.closing && Silent(s, a) && Enabled(s, step)
    requires step.BeginSubscribe? ==> a !in step.accounts
    ensures var t := Next(s, step, limits); t.session.closing || (Silent(t, a) && Seen(Out(t), a) == Seen(Out(s), a))
  {
    var t := Next(s, step, limits);
    match step {
      case RouteNext => QueueingIsSeen(s, t, EventFrame(s.stream[s.position]), a);
      case Redeliver(i) => QueueingIsSeen(s, t, EventFrame(s.stream[i]), a);
      case Control(text) => QueueingIsSeen(s, t, ControlFrame(text), a);
      case SendOne =>
        assert s.session.queue == [s.session.queue[0]] + s.session.queue[1..];
        assert Out(t) == Out(s);
      case Finish(order, body) => FinishStaysSilent(s, order, body, limits, a);
      case _ =>
    }
  }

  lemma FinishStaysSilent(s: System, order: seq<string>, body: string, limits: Limits, a: string)
    requires Inv(s) && !s.session.closing && Silent(s, a) && Enabled(s, Finish(order, body))
    ensures var t := Next(s, Finish(order, body), limits); t.session.closing || (Silent(t, a) && Seen(Out(t), a) == Seen(Out(s), a))
  {
    BuffersAreOwn(s);
    FinishView(s, order, body, limits, a);
    var snapshot := SnapshotFrame(s.phase.targets, s.phase.cursor, body);
    FlushAccountsFor(Enqueue(s.session, snapshot, limits).0, order, s.phase.cursor, limits, a);
  }

  /** Once unsubscribed, the client is sent nothing of the account until it subscribes to it again. */
  lemma {:induction false} UnsubscribedIsSilent(s: System, steps: seq<Step>, limits: Limits, a: string)
    requires Inv(s) && !s.session.closing && Silent(s, a) && ValidRun(s, steps, limits)
    requires forall step :: step in steps && step.BeginSubscribe? ==> a !in step.accounts
    ensures var t := Run(s, steps, limits); t.session.closing || (Silent(t, a) && Seen(Out(t), a) == Seen(Out(s), a))
    decreases |steps|
  {
    if steps != [] {
      var t := Next(s, steps[0], limits);
      StepStaysSilent(s, steps[0], limits, a);
      StepKeepsInvariant(s, steps[0], limits);
      if t.session.closing {
        NothingAfterClose(t, steps[1..], limits);
      } else {
        UnsubscribedIsSilent(t, steps[1..], limits, a);
      }
    }
  }

  // --- When a connection survives.

  /** The step asks for more than the queue or a buffer has room for, or closes the connection itself. */
  predicate Fills(s: System, step: Step, limits: Limits) {
    match step
    case RouteNext => s.position < |s.stream| && Overflows(s.session, s.stream[s.position], limits)
    case Redeliver(i) => i < |s.stream| && Overflows(s.session, s.stream[i], limits)
    case Finish(order, _) =>
      s.phase.CursorRead? && |s.session.queue| + 1 + OwedCount(s.session, order, s.phase.cursor) > limits.queue
    case Control(_) => |s.session.queue| >= limits.queue
    case CloseConnection => true
    case _ => false
  }

  lemma StepKeepsWellFormed(s: System, step: Step, limits: Limits)
    requires WellFormed(s.session, limits)
    ensures var t := Next(s, step, limits);
      WellFormed(t.session, limits) && (s.session.closing ==> t.session.closing)
  {
    match step {
      case RouteNext => if s.position < |s.stream| { DeliverWellFormed(s.session, s.stream[s.position], limits); }
      case Redeliver(i) => if i < |s.stream| { DeliverWellFormed(s.session, s.stream[i], limits); }
      case BeginSubscribe(accounts) => SubscribeWellFormed(s.session, accounts, true, limits);
      case Finish(order, body) =>
        if s.phase.CursorRead? {
          FinishSnapshotWellFormed(s.session, order, s.phase.cursor, SnapshotFrame(s.phase.targets, s.phase.cursor, body), limits);
        }
      case Drop(accounts) => UnsubscribeWellFormed(s.session, accounts, limits);
      case Control(text) => EnqueueWellFormed(s.session, ControlFrame(text), limits);
      case CloseConnection => CloseWellFormed(s.session, limits);
      case _ =>
    }
  }

  lemma StepClosesIff(s: System, step: Step, limits: Limits)
    requires WellFormed(s.session, limits) && !s.session.closing && Enabled(s, step)
    ensures Next(s, step, limits).session.closing <==> Fills(s, step, limits)
  {
    match step {
      case RouteNext => DeliverClosesIff(s.session, s.stream[s.position], limits);
      case Redeliver(i) => DeliverClosesIff(s.session, s.stream[i], limits);
      case Finish(order, body) =>
        FinishClosesIff(s.session, order, s.phase.cursor, SnapshotFrame(s.phase.targets, s.phase.cursor, body), limits);
      case Control(text) => EnqueueCases(s.session, ControlFrame(text), limits);
      case CloseConnection => CloseWellFormed(s.session, limits);
      case _ =>
    }
  }

  /** A connection is open at the end of a run exactly if nothing closed it and every event, snapshot and
      answer found room in its queue or buffer. */
  lemma {:induction false} RunClosesIff(s: System, steps: seq<Step>, limits: Limits)
    requires WellFormed(s.session, limits) && ValidRun(s, steps, limits)
    ensures Run(s, steps, limits).session.closing
       <==> s.session.closing || exists k :: 0 <= k < |steps| && Fills(Run(s, steps[..k], limits), steps[k], limits)
    decreases |steps|
  {
    if steps != [] {
      var t, rest := Next(s, steps[0], limits), steps[1..];
      StepKeepsWellFormed(s, steps[0], limits);
      RunClosesIff(t, rest, limits);
      if !s.session.closing {
        StepClosesIff(s, steps[0], limits);
        assert Run(s, steps[..0], limits) == s;
        forall k | 0 <= k < |rest| ensures Run(s, steps[..k + 1], limits) == Run(t, rest[..k], limits) && steps[k + 1] == rest[k] {
          assert steps[..k + 1][1..] == rest[..k];
        }
        if k :| 0 <= k < |rest| && Fills(Run(t, rest[..k], limits), rest[k], limits) {
          assert Fills(Run(s, steps[..k + 1], limits), steps[k + 1], limits);
        }
        if k :| 0 <= k < |steps| && Fills(Run(s, steps[..k], limits), steps[k], limits) {
          assert k > 0 ==> Fills(Run(t, rest[..k - 1], limits), rest[k - 1], limits);
        }
      }
    }
  }

  /** So in a run in which everything finds room and nobody closes the connection, nothing is lost: once the
      consumer has caught up, an account that is not loading has been sent every event of the stream past its
      snapshot. */
  lemma NothingIsLost(start: System, steps: seq<Step>, limits: Limits, a: string)
    requires Initial(start) && ValidRun(start, steps, limits)
    requires forall k :: 0 <= k < |steps| ==> !Fills(Run(start, steps[..k], limits), steps[k], limits)
    ensures var s := Run(start, steps, limits);
      && !s.session.closing
      && (a in s.session.subscribed && a !in s.session.loading && s.position == |s.stream| ==>
            var view := Seen(Out(s), a);
            view.snapshot.Some? && view.events == Select(s.stream, a, view.snapshot.value))
  {
    assert WellFormed(FRESH, limits);
    RunClosesIff(start, steps, limits);
    DeliveryIsExact(start, steps, limits, a);
  }

  /** A connection that has read the cursor of an empty stream and then been routed `e` once. */
  function LoadingOne(a: string, e: Envelope): System {
    System([e], 1, CursorRead({a}, ORIGIN), Session(false, {a}, {a}, map[a := [e]], map[], []), [])
  }

  lemma LoadingOneIsReachable(a: string, e: Envelope, limits: Limits)
    requires e.accountId == a && a != "" && limits.buffer >= 1
    ensures var s0 := System([], 0, Idle, FRESH, []);
      var steps := [BeginSubscribe({a}), ReadCursor, Publish(e), RouteNext];
      Initial(s0) && ValidRun(s0, steps, limits) && Run(s0, steps, limits) == LoadingOne(a, e)
  {
    var s0 := System([], 0, Idle, FRESH, []);
    var steps := [BeginSubscribe({a}), ReadCursor, Publish(e), RouteNext];
    var s1 := Next(s0, steps[0], limits);
    var s2 := Next(s1, steps[1], limits);
    var s3 := Next(s2, steps[2], limits);
    assert s3.stream == [e] && s3.session.buffers[a] == [];
    assert steps[1..] == [ReadCursor, Publish(e), RouteNext];
    assert steps[1..][1..] == [Publish(e), RouteNext];
    assert steps[1..][1..][1..] == [RouteNext];
    assert [RouteNext][1..] == [];
    assert Next(s3, RouteNext, limits) == LoadingOne(a, e);
    assert ValidRun(s3, [RouteNext], limits) && Run(s3, [RouteNext], limits) == LoadingOne(a, e);
    assert ValidRun(s2, [Publish(e), RouteNext], limits) && Run(s2, [Publish(e), RouteNext], limits) == LoadingOne(a, e);
    assert ValidRun(s1, steps[1..], limits) && Run(s1, steps[1..], limits) == LoadingOne(a, e);
  }

  /** Whatever was buffered, in whatever order: if the connection survives the flush, the client of `a`
      sees the sorted buffer past the cursor. */
  lemma WindowView(s: System, order: seq<string>, body: string, limits: Limits, a: string)
    requires s.phase.CursorRead? && a in order && NoRepeats(order) && s.phase.targets == (set x | x in order)
    requires OwnBuffers(s.session)
    ensures var t := Next(s, Finish(order, body), limits);
      !t.session.closing ==>
        Seen(Out(t), a) == View(Some(s.phase.cursor), SortByVersion(Above(Buffered(s.session, a), s.phase.cursor)))
  {
    FinishView(s, order, body, limits, a);
    FlushIncreasingIff(Buffered(s.session, a), s.phase.cursor);
  }

  /** And it sees a version twice exactly when the buffer held it twice. */
  lemma WindowDuplicatesIff(s: System, order: seq<string>, body: string, limits: Limits, a: string)
    requires s.phase.CursorRead? && a in order && NoRepeats(order) && s.phase.targets == (set x | x in order)
    requires OwnBuffers(s.session)
    ensures var t := Next(s, Finish(order, body), limits);
      !t.session.closing ==>
        (Increasing(Seen(Out(t), a).events) <==> DistinctVersions(Above(Buffered(s.session, a), s.phase.cursor)))
  {
    WindowView(s, order, body, limits, a);
    FlushIncreasingIff(Buffered(s.session, a), s.phase.cursor);
  }

  lemma FlushIncreasingIff(buffered: seq<Envelope>, cursor: StreamId)
    ensures var past := Above(buffered, cursor);
      && Above(SortByVersion(buffered), cursor) == SortByVersion(past)
      && (Increasing(SortByVersion(past)) <==> DistinctVersions(past))
  {
    var flushed := Above(SortByVersion(buffered), cursor);
    AboveOfSort(buffered, cursor);
    ReplayIncreasingIff(cursor, buffered, []);
    assert flushed + Records(Newest(cursor, flushed), []) == flushed;
  }

  /** The excluded redelivery has to be excluded, and nothing more: while a snapshot loads, a message routed
      again without overflowing the buffer is safe exactly if no version past the cursor is buffered twice. */
  lemma RedeliverySafeIff(s: System, i: nat, limits: Limits)
    requires Inv(s) && !s.session.closing && i < s.position && s.phase.CursorRead?
    requires s.stream[i].accountId in s.session.loading
    ensures var t := Next(s, Redeliver(i), limits);
      t.session.closing
      || (SafeRedelivery(s, i) <==> DistinctVersions(Above(Buffered(t.session, s.stream[i].accountId), s.phase.cursor)))
  {
    var e, c := s.stream[i], s.phase.cursor;
    var a := e.accountId;
    assert AccountInv(s, a);
    var past := Select(Routed(s), a, c);
    LoadingBuffers(s.session, e, limits, a);
    AboveAppend(Buffered(s.session, a), e, c);
    SelectIncreasing(Routed(s), a, c);
    if Less(c, e.version) {
      assert e in Routed(s);
      SelectContains(Routed(s), a, c, e);
      var j :| 0 <= j < |past| && past[j] == e;
      assert (past + [e])[j].version == (past + [e])[|past|].version;
    }
  }

  /** So after an unsafe redelivery the connection is closed, by then or in the flush, or its client gets
      events of the account out of strictly increasing order. */
  lemma UnsafeRedeliveryDuplicates(s: System, i: nat, order: seq<string>, body: string, limits: Limits)
    requires Inv(s) && !s.session.closing && i < s.position && !SafeRedelivery(s, i)
    requires Enabled(s, Finish(order, body))
    ensures var t := Next(s, Redeliver(i), limits);
      var u := Next(t, Finish(order, body), limits);
      t.session.closing || u.session.closing || !Increasing(Seen(Out(u), s.stream[i].accountId).events)
  {
    var a, t := s.stream[i].accountId, Next(s, Redeliver(i), limits);
    assert AccountInv(s, a);
    RedeliverySafeIff(s, i, limits);
    if !t.session.closing {
      BuffersAreOwn(s);
      LoadingBuffers(s.session, s.stream[i], limits, a);
      RedeliveryKeepsOwn(s, i, limits);
      assert a in order;
      WindowDuplicatesIff(t, order, body, limits, a);
    }
  }

  lemma RedeliveryKeepsOwn(s: System, i: nat, limits: Limits)
    requires OwnBuffers(s.session) && i < |s.stream| && !Next(s, Redeliver(i), limits).session.closing
    ensures OwnBuffers(Next(s, Redeliver(i), limits).session)
  {}

  /** The system after that redelivery in the instance. */
  predicate BufferedTwice(s: System, a: string, e: Envelope) {
    s.phase == CursorRead({a}, ORIGIN) && s.session == Session(false, {a}, {a}, map[a := [e, e]], map[], [])
  }

  lemma RedeliveredInstance(a: string, e: Envelope, limits: Limits)
    requires e.accountId == a && limits.buffer >= 2
    ensures BufferedTwice(Next(LoadingOne(a, e), Redeliver(0), limits), a, e)
  {
    assert [e] + [e] == [e, e];
  }

  /** For instance, after that the client of `a` gets the one event of the stream twice. */
  lemma EventIsSentTwice(s: System, a: string, e: Envelope, body: string, limits: Limits)
    requires e.accountId == a && Less(ORIGIN, e.version) && limits.buffer >= 2 && limits.queue >= 3
    requires s == Next(LoadingOne(a, e), Redeliver(0), limits)
    ensures var t := Next(s, Finish([a], body), limits);
      !t.session.closing && Seen(Out(t), a) == View(Some(ORIGIN), [e, e])
  {
    RedeliveredInstance(a, e, limits);
    PairView(s, a, e, body, limits);
  }

  lemma PairView(s: System, a: string, e: Envelope, body: string, limits: Limits)
    requires e.accountId == a && Less(ORIGIN, e.version) && limits.queue >= 3 && BufferedTwice(s, a, e)
    ensures var t := Next(s, Finish([a], body), limits);
      !t.session.closing && Seen(Out(t), a) == View(Some(ORIGIN), [e, e])
  {
    RoomToFinish(s, a, body, limits);
    PairIsOwed(s.session, a, e);
    assert s.phase.targets == set x | x in [a];
    FinishView(s, [a], body, limits, a);
  }

  lemma PairIsOwed(s: Session, a: string, e: Envelope)
    requires e.accountId == a && Less(ORIGIN, e.version) && s.buffers == map[a := [e, e]]
    ensures OwnBuffers(s) && Owed(s, a, ORIGIN) == [e, e]
  {
    SortOfSorted([e, e]);
    PairIsAbove(e);
  }

  lemma PairIsAbove(e: Envelope)
    ensures Less(ORIGIN, e.version) ==> Above([e, e], ORIGIN) == [e, e]
  {
    AboveAppend([], e, ORIGIN);
    AboveAppend([e], e, ORIGIN);
    assert [] + [e] == [e] && [e] + [e] == [e, e];
  }

  /** A flush the queue has room for leaves the connection open. */
  lemma RoomToFinish(s: System, a: string, body: string, limits: Limits)
    requires s.phase.CursorRead? && s.phase.targets == {a} && !s.session.closing
    requires |s.session.queue| + 1 + |Buffered(s.session, a)| <= limits.queue
    ensures !Next(s, Finish([a], body), limits).session.closing
  {
    var t := Enqueue(s.session, SnapshotFrame(s.phase.targets, s.phase.cursor, body), limits).0;
    OneFlushed(t, a, s.phase.cursor, limits);
    AccountFits(t, a, s.phase.cursor, limits);
  }

  lemma OneFlushed(s: Session, a: string, cursor: StreamId, limits: Limits)
    ensures FlushAccounts(s, [a], cursor, limits) == FlushAccount(s, a, cursor, limits)
  {
    FlushAccountsStep(s, [a], 0, cursor, limits);
    assert [a][..1] == [a] && [a][..0] == [];
  }

  lemma AccountFits(s: Session, a: string, cursor: StreamId, limits: Limits)
    requires !s.closing && |s.queue| + |Buffered(s, a)| <= limits.queue
    ensures !FlushAccount(s, a, cursor, limits).closing
  {
    var events := SortByVersion(Buffered(s, a));
    SortSorts(Buffered(s, a));
    assert |events| == |multiset(events)|;
    FlushFits(StopLoading(s, a, cursor), a, events, cursor, limits);
  }

  lemma {:induction false} FlushFits(s: Session, a: string, events: seq<Envelope>, cursor: StreamId, limits: Limits)
    requires !s.closing && |s.queue| + |events| <= limits.queue
    ensures var t := FlushEvents(s, a, events, cursor, limits); !t.closing && |t.queue| <= |s.queue| + |events|
  {
    if events != [] {
      FlushFits(s, a, events[..|events| - 1], cursor, limits);
    }
  }
}

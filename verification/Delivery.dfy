/** What the connection manager does to one connection, as functions on the connection's state. The
    class in ConnectionManagement.dfy is proved to perform exactly these transitions. */
module Delivery {
  import opened Options
  import opened StreamOrder

  /** What is put on a send queue: the serialised text stands for one of these. */
  datatype Frame =
    | SnapshotFrame(accounts: set<string>, cursor: StreamId, body: string)
    | EventFrame(event: Envelope)
    | ControlFrame(text: string)

  /** The mutable part of a connection context that takes part in routing. */
  datatype Session = Session(
    closing: bool,
    subscribed: set<string>,
    loading: set<string>,
    buffers: map<string, seq<Envelope>>,
    last: map<string, StreamId>,
    queue: seq<Frame>)

  datatype Limits = Limits(queue: nat, buffer: nat)

  const FRESH := Session(false, {}, {}, map[], map[], [])

  function Buffered(s: Session, a: string): seq<Envelope> {
    if a in s.buffers then s.buffers[a] else []
  }

  function Subscribe(s: Session, accounts: set<string>, snapshotLoading: bool): Session {
    if snapshotLoading then
      s.(subscribed := s.subscribed + accounts,
         loading := s.loading + accounts,
         buffers := map a | a in s.buffers.Keys + accounts :: Buffered(s, a))
    else
      s.(subscribed := s.subscribed + accounts)
  }

  function Unsubscribe(s: Session, accounts: set<string>): Session {
    s.(subscribed := s.subscribed - accounts,
       loading := s.loading - accounts,
       buffers := s.buffers - accounts,
       last := s.last - accounts)
  }

  /** Idempotent; drops the routes of every subscribed account and everything still queued. */
  function Close(s: Session): Session {
    if s.closing then s else Unsubscribe(s, s.subscribed).(closing := true, queue := [])
  }

  /** Non-blocking put; a full queue closes the connection. */
  function Enqueue(s: Session, f: Frame, limits: Limits): (r: (Session, bool)) {
    if s.closing then (s, false)
    else if |s.queue| < limits.queue then (s.(queue := s.queue + [f]), true)
    else (Close(s), false)
  }

  function LastVersion(s: Session, a: string): StreamId {
    if a in s.last then s.last[a] else ORIGIN
  }

  /** One connection's share of a broadcast, and whether the event was queued on it. */
  function Deliver(s: Session, e: Envelope, limits: Limits): (r: (Session, bool)) {
    var a := e.accountId;
    if a !in s.subscribed then (s, false)
    else if a in s.loading then
      var buffer := Buffered(s, a);
      if |buffer| >= limits.buffer then (Close(s), false)
      else (s.(buffers := s.buffers[a := buffer + [e]]), false)
    else if AtMost(e.version, LastVersion(s, a)) then (s, false)
    else
      var (t, queued) := Enqueue(s, EventFrame(e), limits);
      (if queued then t.(last := t.last[a := e.version]) else t, queued)
  }

  /** Queue one buffered event unless the snapshot's cursor covers it. */
  function FlushEvent(s: Session, a: string, e: Envelope, cursor: StreamId, limits: Limits): Session {
    if AtMost(e.version, cursor) then s else
      var (t, queued) := Enqueue(s, EventFrame(e), limits);
      if queued then t.(last := t.last[a := e.version]) else t
  }

  function FlushEvents(s: Session, a: string, events: seq<Envelope>, cursor: StreamId, limits: Limits): Session {
    if events == [] then s
    else FlushEvent(FlushEvents(s, a, events[..|events| - 1], cursor, limits), a, events[|events| - 1], cursor, limits)
  }

  function StopLoading(s: Session, a: string, cursor: StreamId): Session {
    s.(last := s.last[a := cursor], buffers := s.buffers - {a}, loading := s.loading - {a})
  }

  function FlushAccount(s: Session, a: string, cursor: StreamId, limits: Limits): Session {
    FlushEvents(StopLoading(s, a, cursor), a, SortByVersion(Buffered(s, a)), cursor, limits)
  }

  function FlushAccounts(s: Session, accounts: seq<string>, cursor: StreamId, limits: Limits): Session {
    if accounts == [] then s
    else FlushAccount(FlushAccounts(s, accounts[..|accounts| - 1], cursor, limits), accounts[|accounts| - 1], cursor, limits)
  }

  /** One more round of either loop. */
  lemma FlushEventsStep(s: Session, a: string, events: seq<Envelope>, i: nat, cursor: StreamId, limits: Limits)
    requires i < |events|
    ensures FlushEvents(s, a, events[..i + 1], cursor, limits)
         == FlushEvent(FlushEvents(s, a, events[..i], cursor, limits), a, events[i], cursor, limits)
  {
    assert events[..i + 1][..i] == events[..i];
  }

  lemma FlushAccountsStep(s: Session, accounts: seq<string>, i: nat, cursor: StreamId, limits: Limits)
    requires i < |accounts|
    ensures FlushAccounts(s, accounts[..i + 1], cursor, limits)
         == FlushAccount(FlushAccounts(s, accounts[..i], cursor, limits), accounts[i], cursor, limits)
  {
    assert accounts[..i + 1][..i] == accounts[..i];
  }

  /** The snapshot first, then each account's buffer; `accounts` is the set's iteration order. */
  function FinishSnapshot(s: Session, accounts: seq<string>, cursor: StreamId, snapshot: Frame, limits: Limits): Session {
    var (t, queued) := Enqueue(s, snapshot, limits);
    if queued then FlushAccounts(t, accounts, cursor, limits) else t
  }

  // --- The bounds and shape every transition keeps.

  ghost predicate WellFormed(s: Session, limits: Limits) {
    && s.buffers.Keys == s.loading <= s.subscribed
    && |s.queue| <= limits.queue
    && (forall a :: a in s.buffers ==> |s.buffers[a]| <= limits.buffer)
    && (s.closing ==> s.queue == [])
  }

  lemma EnqueueWellFormed(s: Session, f: Frame, limits: Limits)
    requires WellFormed(s, limits)
    ensures WellFormed(Enqueue(s, f, limits).0, limits)
  {
    CloseWellFormed(s, limits);
  }

  /** A closed connection is subscribed to nothing, buffers nothing and has nothing queued. */
  lemma CloseWellFormed(s: Session, limits: Limits)
    requires WellFormed(s, limits)
    ensures WellFormed(Close(s), limits) && Close(s).closing && Close(s).queue == []
    ensures !s.closing ==> Close(s).subscribed == {} && Close(s).loading == {} && Close(s).buffers == map[]
    ensures Close(Close(s)) == Close(s) && (s.closing ==> Close(s) == s)
  {
    if !s.closing {
      assert s.loading - s.subscribed == {};
      assert (s.buffers - s.subscribed).Keys == {};
    }
  }

  lemma DeliverWellFormed(s: Session, e: Envelope, limits: Limits)
    requires WellFormed(s, limits)
    ensures WellFormed(Deliver(s, e, limits).0, limits)
    ensures s.closing ==> Deliver(s, e, limits).0.queue == []
  {
    CloseWellFormed(s, limits);
  }

  lemma {:induction false} FlushEventsWellFormed(s: Session, a: string, events: seq<Envelope>, cursor: StreamId, limits: Limits)
    requires WellFormed(s, limits)
    ensures WellFormed(FlushEvents(s, a, events, cursor, limits), limits)
    ensures s.closing ==> FlushEvents(s, a, events, cursor, limits).closing
  {
    if events != [] {
      FlushEventsWellFormed(s, a, events[..|events| - 1], cursor, limits);
      var p := FlushEvents(s, a, events[..|events| - 1], cursor, limits);
      EnqueueWellFormed(p, EventFrame(events[|events| - 1]), limits);
    }
  }

  lemma {:induction false} FlushAccountsWellFormed(s: Session, accounts: seq<string>, cursor: StreamId, limits: Limits)
    requires WellFormed(s, limits)
    ensures WellFormed(FlushAccounts(s, accounts, cursor, limits), limits)
  {
    if accounts != [] {
      FlushAccountsWellFormed(s, accounts[..|accounts| - 1], cursor, limits);
      var p := FlushAccounts(s, accounts[..|accounts| - 1], cursor, limits);
      FlushAccountWellFormed(p, accounts[|accounts| - 1], cursor, limits);
    }
  }

  lemma FlushAccountWellFormed(s: Session, a: string, cursor: StreamId, limits: Limits)
    requires WellFormed(s, limits)
    ensures WellFormed(FlushAccount(s, a, cursor, limits), limits)
  {
    var t := StopLoading(s, a, cursor);
    FlushEventsWellFormed(t, a, SortByVersion(Buffered(s, a)), cursor, limits);
  }

  lemma FinishSnapshotWellFormed(s: Session, accounts: seq<string>, cursor: StreamId, snapshot: Frame, limits: Limits)
    requires WellFormed(s, limits)
    ensures WellFormed(FinishSnapshot(s, accounts, cursor, snapshot, limits), limits)
  {
    EnqueueWellFormed(s, snapshot, limits);
    FlushAccountsWellFormed(Enqueue(s, snapshot, limits).0, accounts, cursor, limits);
  }

  lemma SubscribeWellFormed(s: Session, accounts: set<string>, snapshotLoading: bool, limits: Limits)
    ensures WellFormed(s, limits) ==> WellFormed(Subscribe(s, accounts, snapshotLoading), limits)
  {}

  lemma UnsubscribeWellFormed(s: Session, accounts: set<string>, limits: Limits)
    ensures WellFormed(s, limits) ==> WellFormed(Unsubscribe(s, accounts), limits)
  {}

  // --- What each transition does to an open connection, and when it closes it.

  /** Any frame: queued behind the others while there is room, and otherwise the connection closes; a closed
      connection takes nothing. */
  lemma EnqueueCases(s: Session, f: Frame, limits: Limits)
    ensures var (t, queued) := Enqueue(s, f, limits);
      && (queued <==> !s.closing && |s.queue| < limits.queue)
      && (queued ==> t == s.(queue := s.queue + [f]))
      && (s.closing ==> t == s)
      && (!s.closing && |s.queue| >= limits.queue ==> t.closing && t.queue == [] && t.subscribed == {})
  {}

  /** The newest version the connection remembers of an account is older than the event. */
  predicate IsNews(s: Session, e: Envelope) {
    Less(if e.accountId in s.last then s.last[e.accountId] else StreamId(0, 0), e.version)
  }

  /** A routed event of a live account with room: queued, remembered and counted, and the connection stays
      open. */
  lemma LiveEventIsQueued(s: Session, e: Envelope, limits: Limits)
    requires !s.closing && e.accountId in s.subscribed && e.accountId !in s.loading
    requires IsNews(s, e) && |s.queue| < limits.queue
    ensures Deliver(s, e, limits) == (s.(queue := s.queue + [EventFrame(e)], last := s.last[e.accountId := e.version]), true)
  {}

  /** One of an account whose snapshot is loading, with room: kept for the flush. */
  lemma LoadingEventIsBuffered(s: Session, e: Envelope, limits: Limits)
    requires e.accountId in s.subscribed && e.accountId in s.loading && e.accountId in s.buffers
    requires |s.buffers[e.accountId]| < limits.buffer
    ensures Deliver(s, e, limits) == (s.(buffers := s.buffers[e.accountId := s.buffers[e.accountId] + [e]]), false)
  {}

  /** A repetition, and an event of an account not subscribed: nothing. */
  lemma OldEventIsDropped(s: Session, e: Envelope, limits: Limits)
    requires e.accountId !in s.subscribed || (e.accountId !in s.loading && !IsNews(s, e))
    ensures Deliver(s, e, limits) == (s, false)
  {}

  /** The event finds its buffer, or the queue it is meant for, full. */
  predicate Overflows(s: Session, e: Envelope, limits: Limits) {
    e.accountId in s.subscribed &&
      if e.accountId in s.loading then e.accountId in s.buffers && |s.buffers[e.accountId]| >= limits.buffer
      else IsNews(s, e) && |s.queue| >= limits.queue
  }

  lemma DeliverClosesIff(s: Session, e: Envelope, limits: Limits)
    requires !s.closing && s.buffers.Keys == s.loading
    ensures Deliver(s, e, limits).0.closing <==> Overflows(s, e, limits)
    ensures Overflows(s, e, limits) ==> !Deliver(s, e, limits).1
  {
    if e.accountId in s.loading {
      assert e.accountId in s.buffers;
    }
  }

  /** The flush of one account closes the connection exactly if the events past the cursor do not fit. */
  lemma {:induction false} FlushEventsClosesIff(s: Session, a: string, events: seq<Envelope>, cursor: StreamId, limits: Limits)
    requires !s.closing && |s.queue| <= limits.queue
    ensures var t := FlushEvents(s, a, events, cursor, limits);
      && (t.closing <==> |s.queue| + |Above(events, cursor)| > limits.queue)
      && (!t.closing ==> |t.queue| == |s.queue| + |Above(events, cursor)|)
  {
    if events != [] {
      var p := FlushEvents(s, a, events[..|events| - 1], cursor, limits);
      FlushEventsClosesIff(s, a, events[..|events| - 1], cursor, limits);
      if !p.closing && Less(cursor, events[|events| - 1].version) {
        EnqueueCases(p, EventFrame(events[|events| - 1]), limits);
      } else if p.closing {
        EnqueueCases(p, EventFrame(events[|events| - 1]), limits);
      }
    }
  }

  /** One event of the flush: passed over if the snapshot covers it, remembered only if it was queued. */
  lemma FlushEventCases(s: Session, a: string, e: Envelope, cursor: StreamId, limits: Limits)
    ensures var t := FlushEvent(s, a, e, cursor, limits);
      && (!Less(cursor, e.version) ==> t == s)
      && (Less(cursor, e.version) && !s.closing && |s.queue| < limits.queue ==>
            t == s.(queue := s.queue + [EventFrame(e)], last := s.last[a := e.version]))
      && (s.closing ==> t == s)
  {}

  /** How many events the flush of the accounts owes. */
  function OwedCount(s: Session, accounts: seq<string>, cursor: StreamId): nat {
    if accounts == [] then 0
    else OwedCount(s, accounts[..|accounts| - 1], cursor) + |Above(Buffered(s, accounts[|accounts| - 1]), cursor)|
  }

  /** So the flush of all of them closes it exactly if what is owed altogether does not fit. */
  lemma {:induction false} FlushAccountsClosesIff(s: Session, accounts: seq<string>, cursor: StreamId, limits: Limits)
    requires !s.closing && |s.queue| <= limits.queue && NoRepeats(accounts)
    ensures var t := FlushAccounts(s, accounts, cursor, limits);
      && (t.closing <==> |s.queue| + OwedCount(s, accounts, cursor) > limits.queue)
      && (!t.closing ==> |t.queue| == |s.queue| + OwedCount(s, accounts, cursor))
  {
    if accounts != [] {
      var front, a := accounts[..|accounts| - 1], accounts[|accounts| - 1];
      assert accounts == front + [a] && a !in front;
      FlushAccountsClosesIff(s, front, cursor, limits);
      var p := FlushAccounts(s, front, cursor, limits);
      if p.closing {
        FlushKeepsClosed(p, a, SortByVersion(Buffered(p, a)), cursor, limits);
      } else {
        FlushAccountsFor(s, front, cursor, limits, a);
        assert Buffered(p, a) == Buffered(s, a);
        FlushEventsClosesIff(StopLoading(p, a, cursor), a, SortByVersion(Buffered(p, a)), cursor, limits);
        OwedSize(Buffered(s, a), cursor);
      }
    }
  }

  lemma {:induction false} FlushKeepsClosed(s: Session, a: string, events: seq<Envelope>, cursor: StreamId, limits: Limits)
    requires s.closing
    ensures FlushEvents(StopLoading(s, a, cursor), a, events, cursor, limits).closing
  {
    if events != [] {
      FlushKeepsClosed(s, a, events[..|events| - 1], cursor, limits);
    }
  }

  lemma OwedSize(buffered: seq<Envelope>, cursor: StreamId)
    ensures |Above(SortByVersion(buffered), cursor)| == |Above(buffered, cursor)|
  {
    AboveOfSort(buffered, cursor);
    SortSorts(Above(buffered, cursor));
    assert |multiset(SortByVersion(Above(buffered, cursor)))| == |multiset(Above(buffered, cursor))|;
  }

  /** A snapshot and its flush close the connection exactly if together they do not fit. */
  lemma FinishClosesIff(s: Session, accounts: seq<string>, cursor: StreamId, snapshot: Frame, limits: Limits)
    requires !s.closing && |s.queue| <= limits.queue && NoRepeats(accounts)
    ensures FinishSnapshot(s, accounts, cursor, snapshot, limits).closing
       <==> |s.queue| + 1 + OwedCount(s, accounts, cursor) > limits.queue
  {
    EnqueueCases(s, snapshot, limits);
    if |s.queue| < limits.queue {
      var t := s.(queue := s.queue + [snapshot]);
      FlushAccountsClosesIff(t, accounts, cursor, limits);
      SameOwed(s, t, accounts, cursor);
    }
  }

  lemma {:induction false} SameOwed(s: Session, t: Session, accounts: seq<string>, cursor: StreamId)
    requires s.buffers == t.buffers
    ensures OwedCount(s, accounts, cursor) == OwedCount(t, accounts, cursor)
  {
    if accounts != [] {
      SameOwed(s, t, accounts[..|accounts| - 1], cursor);
    }
  }

  // --- The flush as a whole: which frames it queues and what it leaves behind.

  ghost predicate OwnEvents(events: seq<Envelope>, a: string) {
    forall e :: e in events ==> e.accountId == a
  }

  ghost predicate OwnBuffers(s: Session) {
    forall a :: a in s.buffers ==> OwnEvents(s.buffers[a], a)
  }

  ghost predicate NoRepeats(accounts: seq<string>) {
    forall i, j :: 0 <= i < j < |accounts| ==> accounts[i] != accounts[j]
  }

  function EventFrames(events: seq<Envelope>): seq<Frame> {
    if events == [] then [] else EventFrames(events[..|events| - 1]) + [EventFrame(events[|events| - 1])]
  }

  /** The events the flush owes account `a`. */
  function Owed(s: Session, a: string, cursor: StreamId): seq<Envelope> {
    Above(SortByVersion(Buffered(s, a)), cursor)
  }

  function FlushFrames(s: Session, accounts: seq<string>, cursor: StreamId): seq<Frame> {
    if accounts == [] then [] else
      FlushFrames(s, accounts[..|accounts| - 1], cursor) + EventFrames(Owed(s, accounts[|accounts| - 1], cursor))
  }

  /** Flushing sorted events of one account queues exactly those above the cursor and remembers the
      newest, unless the connection had to be closed on the way. */
  lemma {:induction false} FlushEventsQueues(s: Session, a: string, events: seq<Envelope>, cursor: StreamId, limits: Limits)
    requires a in s.last && s.last[a] == cursor
    ensures var t := FlushEvents(s, a, events, cursor, limits);
      var owed := Above(events, cursor);
      !t.closing ==>
        !s.closing && t == s.(queue := s.queue + EventFrames(owed), last := s.last[a := Newest(cursor, owed)])
  {
    var t := FlushEvents(s, a, events, cursor, limits);
    if events == [] {
      assert s.last[a := cursor] == s.last && s.queue + [] == s.queue;
    } else if !t.closing {
      var front, e := events[..|events| - 1], events[|events| - 1];
      FlushEventsQueues(s, a, front, cursor, limits);
      var owed := Above(front, cursor);
      if Less(cursor, e.version) {
        assert (owed + [e])[..|owed|] == owed;
        ConcatAssociates(s.queue, EventFrames(owed), [EventFrame(e)]);
      }
    }
  }

  lemma FlushAccountQueues(s: Session, a: string, cursor: StreamId, limits: Limits)
    ensures var t := FlushAccount(s, a, cursor, limits);
      var owed := Owed(s, a, cursor);
      !t.closing ==>
        && !s.closing
        && t == s.(queue := s.queue + EventFrames(owed), last := s.last[a := Newest(cursor, owed)],
                   loading := s.loading - {a}, buffers := s.buffers - {a})
  {
    var sorted := SortByVersion(Buffered(s, a));
    var u := StopLoading(s, a, cursor);
    FlushEventsQueues(u, a, sorted, cursor, limits);
    var newest := Newest(cursor, Above(sorted, cursor));
    assert u.last[a := newest] == s.last[a := newest];
  }

  /** What the flush of `accounts` leaves behind, as seen by account `b`. */
  ghost predicate FlushedFor(s: Session, accounts: seq<string>, cursor: StreamId, t: Session, b: string) {
    && (b in t.loading <==> b in s.loading && b !in accounts)
    && (b in t.buffers <==> b in s.buffers && b !in accounts)
    && (b in t.buffers ==> t.buffers[b] == s.buffers[b])
    && (if b in accounts then b in t.last && t.last[b] == Newest(cursor, Owed(s, b, cursor))
        else (b in t.last <==> b in s.last) && (b in s.last ==> t.last[b] == s.last[b]))
  }

  /** The flush of every account takes exactly `accounts` out of the loading state. */
  lemma {:induction false} FlushAccountsFor(s: Session, accounts: seq<string>, cursor: StreamId, limits: Limits, b: string)
    requires NoRepeats(accounts)
    ensures var t := FlushAccounts(s, accounts, cursor, limits);
      !t.closing ==> !s.closing && t.subscribed == s.subscribed && FlushedFor(s, accounts, cursor, t, b)
  {
    var t := FlushAccounts(s, accounts, cursor, limits);
    if accounts != [] && !t.closing {
      var front, a := accounts[..|accounts| - 1], accounts[|accounts| - 1];
      assert accounts == front + [a] && a !in front;
      var p := FlushAccounts(s, front, cursor, limits);
      FlushAccountQueues(p, a, cursor, limits);
      FlushAccountsFor(s, front, cursor, limits, b);
      if a == b {
        assert Buffered(p, a) == Buffered(s, a);
      } else {
        assert b in accounts <==> b in front;
      }
    }
  }

  /** The flush of every account, if the connection survives it, queues what each is owed and nothing
      else. */
  lemma {:induction false} FlushAccountsQueues(s: Session, accounts: seq<string>, cursor: StreamId, limits: Limits)
    requires NoRepeats(accounts)
    ensures var t := FlushAccounts(s, accounts, cursor, limits);
      !t.closing ==> t.queue == s.queue + FlushFrames(s, accounts, cursor)
  {
    var t := FlushAccounts(s, accounts, cursor, limits);
    if accounts != [] && !t.closing {
      var front, a := accounts[..|accounts| - 1], accounts[|accounts| - 1];
      var p := FlushAccounts(s, front, cursor, limits);
      FlushAccountQueues(p, a, cursor, limits);
      FlushAccountsQueues(s, front, cursor, limits);
      FlushAccountsFor(s, front, cursor, limits, a);
      assert Buffered(p, a) == Buffered(s, a);
      ConcatAssociates(s.queue, FlushFrames(s, front, cursor), EventFrames(Owed(s, a, cursor)));
    }
  }

  lemma ConcatAssociates(x: seq<Frame>, y: seq<Frame>, z: seq<Frame>)
    ensures (x + y) + z == x + (y + z)
  {}

  // --- What a client can read off the frames it was sent.

  /** The last snapshot covering an account, by its cursor, and the account's events sent after it. */
  datatype View = View(snapshot: Option<StreamId>, events: seq<Envelope>)

  function Seen(out: seq<Frame>, a: string): View {
    if out == [] then View(None, []) else
      var before := Seen(out[..|out| - 1], a);
      SeenNext(before, out[|out| - 1], a)
  }

  function SeenNext(before: View, f: Frame, a: string): View {
    if f.SnapshotFrame? && a in f.accounts then View(Some(f.cursor), [])
    else if f.EventFrame? && f.event.accountId == a then before.(events := before.events + [f.event])
    else before
  }

  lemma SeenAppend(out: seq<Frame>, f: Frame, a: string)
    ensures Seen(out + [f], a) == SeenNext(Seen(out, a), f, a)
  {
    assert (out + [f])[..|out|] == out;
  }

  /** The client of `b` sees the events queued for `b` and none of another account. */
  lemma {:induction false} SeenEventFrames(out: seq<Frame>, events: seq<Envelope>, a: string, b: string)
    requires OwnEvents(events, a)
    ensures var before := Seen(out, b);
      Seen(out + EventFrames(events), b) == if a == b then before.(events := before.events + events) else before
  {
    if events == [] {
      assert out + [] == out;
    } else {
      var front, e := events[..|events| - 1], events[|events| - 1];
      assert events == front + [e];
      SeenEventFrames(out, front, a, b);
      ConcatAssociates(out, EventFrames(front), [EventFrame(e)]);
      SeenAppend(out + EventFrames(front), EventFrame(e), b);
    }
  }

  lemma {:induction false} SeenFlushFrames(out: seq<Frame>, s: Session, accounts: seq<string>, cursor: StreamId, b: string)
    requires OwnBuffers(s) && NoRepeats(accounts)
    ensures var before := Seen(out, b);
      Seen(out + FlushFrames(s, accounts, cursor), b)
        == if b in accounts then before.(events := before.events + Owed(s, b, cursor)) else before
  {
    if accounts == [] {
      assert out + [] == out;
    } else {
      var front, a := accounts[..|accounts| - 1], accounts[|accounts| - 1];
      assert accounts == front + [a] && a !in front;
      var owed := Owed(s, a, cursor);
      OwedOwn(s, a, cursor);
      SeenFlushFrames(out, s, front, cursor, b);
      ConcatAssociates(out, FlushFrames(s, front, cursor), EventFrames(owed));
      SeenEventFrames(out + FlushFrames(s, front, cursor), owed, a, b);
    }
  }

  lemma OwedOwn(s: Session, a: string, cursor: StreamId)
    requires OwnBuffers(s)
    ensures OwnEvents(Owed(s, a, cursor), a)
  {
    SortSorts(Buffered(s, a));
    forall e | e in Owed(s, a, cursor) ensures e.accountId == a {
      AboveContains(SortByVersion(Buffered(s, a)), cursor, e);
      assert e in multiset(Buffered(s, a));
    }
  }
}

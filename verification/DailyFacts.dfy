/** The daily trading facts of a cash security: one row per instrument and day, moved only to a fact
    synchronised later, whatever order the events arrive in. */
module DailyFacts {
  import opened Options

  /** `values` are the prices and flags of the fact. */
  datatype Fact = Fact(eventId: string, syncedAt: int, values: string)
  datatype Row = Row(fact: Fact, createdAt: int, updatedAt: int)

  datatype Result = Inserted | Duplicate | IgnoredStale | ConflictSameTimestamp | Updated | NotCashSecurity

  function Outcome(row: Option<Row>, f: Fact): Result {
    if row.None? then Inserted
    else if row.value.fact.eventId == f.eventId then Duplicate
    else if f.syncedAt < row.value.fact.syncedAt then IgnoredStale
    else if f.syncedAt == row.value.fact.syncedAt then ConflictSameTimestamp
    else Updated
  }

  function Upserted(row: Option<Row>, f: Fact, now: int): Option<Row> {
    match Outcome(row, f)
    case Inserted => Some(Row(f, now, now))
    case Updated => Some(row.value.(fact := f, updatedAt := now))
    case _ => row
  }

  /** The row after a sequence of deliveries, each with the time it was written. */
  function Run(deliveries: seq<(Fact, int)>): Option<Row> {
    if deliveries == [] then None else
      var last := deliveries[|deliveries| - 1];
      Upserted(Run(deliveries[..|deliveries| - 1]), last.0, last.1)
  }

  function Facts(deliveries: seq<(Fact, int)>): set<Fact> {
    set d | d in deliveries :: d.0
  }

  /** Each event id fixes its fact, and different events have different timestamps. */
  ghost predicate Distinct(facts: set<Fact>) {
    forall f, g :: f in facts && g in facts ==> (f.eventId == g.eventId <==> f == g) && (f.syncedAt == g.syncedAt <==> f == g)
  }

  ghost predicate IsNewest(facts: set<Fact>, f: Fact) {
    f in facts && forall g :: g in facts ==> g.syncedAt <= f.syncedAt
  }

  /** One delivery keeps the newest fact of all those delivered. */
  lemma UpsertKeepsNewest(facts: set<Fact>, row: Row, f: Fact, now: int)
    requires Distinct(facts + {f}) && IsNewest(facts, row.fact)
    ensures Upserted(Some(row), f, now).Some? && IsNewest(facts + {f}, Upserted(Some(row), f, now).value.fact)
  {
    if row.fact.eventId == f.eventId || row.fact.syncedAt == f.syncedAt {
      assert row.fact == f;
    }
  }

  /** For any order and repetition of the deliveries the row ends with the fact synchronised last. */
  lemma {:induction false} NewestWins(deliveries: seq<(Fact, int)>)
    requires deliveries != [] && Distinct(Facts(deliveries))
    ensures Run(deliveries).Some? && IsNewest(Facts(deliveries), Run(deliveries).value.fact)
  {
    var front, last := deliveries[..|deliveries| - 1], deliveries[|deliveries| - 1];
    FactsAppend(front, last);
    assert deliveries == front + [last];
    if front != [] {
      NewestWins(front);
      UpsertKeepsNewest(Facts(front), Run(front).value, last.0, last.1);
    } else {
      assert Facts(front) == {};
    }
  }

  lemma FactsAppend(front: seq<(Fact, int)>, last: (Fact, int))
    ensures Facts(front + [last]) == Facts(front) + {last.0}
  {
    assert forall d :: d in front + [last] <==> d in front || d == last;
    forall f | f in Facts(front) + {last.0} ensures f in Facts(front + [last]) {
      if f == last.0 {
        assert last in front + [last];
      }
    }
  }

  /** So two histories of the same events agree on the fact. */
  lemma OrderDoesNotMatter(deliveries: seq<(Fact, int)>, other: seq<(Fact, int)>)
    requires deliveries != [] && Facts(deliveries) == Facts(other) && Distinct(Facts(deliveries))
    ensures Run(deliveries).Some? && Run(other).Some? && Run(deliveries).value.fact == Run(other).value.fact
  {
    assert deliveries[0].0 in Facts(deliveries);
    assert other != [];
    NewestWins(deliveries);
    NewestWins(other);
  }

  /** The stored timestamp never goes back and the creation time never changes, whatever is delivered. */
  lemma {:induction false} NeverGoesBack(deliveries: seq<(Fact, int)>, n: nat)
    requires n <= |deliveries| && Run(deliveries[..n]).Some?
    ensures Run(deliveries).Some?
    ensures Run(deliveries[..n]).value.fact.syncedAt <= Run(deliveries).value.fact.syncedAt
    ensures Run(deliveries).value.createdAt == Run(deliveries[..n]).value.createdAt
    decreases |deliveries|
  {
    if n == |deliveries| {
      assert deliveries[..n] == deliveries;
    } else {
      var front := deliveries[..|deliveries| - 1];
      assert front[..n] == deliveries[..n];
      NeverGoesBack(front, n);
    }
  }

  /** What each delivery reports and does, by the row it finds: nothing yet, this event, a later timestamp,
      the same one under another event, or an earlier one. */
  lemma Cases(row: Option<Row>, f: Fact, now: int)
    ensures var result, t := Outcome(row, f), Upserted(row, f, now);
      && (row.None? ==> result == Inserted && t == Some(Row(f, now, now)))
      && (row.Some? ==>
            var was := row.value;
            && (f.eventId == was.fact.eventId ==> result == Duplicate && t == row)
            && (f.eventId != was.fact.eventId && f.syncedAt < was.fact.syncedAt ==> result == IgnoredStale && t == row)
            && (f.eventId != was.fact.eventId && f.syncedAt == was.fact.syncedAt ==> result == ConflictSameTimestamp && t == row)
            && (f.eventId != was.fact.eventId && f.syncedAt > was.fact.syncedAt ==>
                  result == Updated && t == Some(Row(f, was.createdAt, now))))
  {}

  /** The delivery that wrote the fact the row holds: the first one of it. */
  ghost predicate Wrote(deliveries: seq<(Fact, int)>, i: nat, row: Row) {
    i < |deliveries| && deliveries[i] == (row.fact, row.updatedAt) && forall j :: 0 <= j < i ==> deliveries[j].0 != row.fact
  }

  /** The row was created with the first delivery and written last by the first one of the fact it holds. */
  lemma {:induction false} TimesOf(deliveries: seq<(Fact, int)>)
    requires deliveries != [] && Distinct(Facts(deliveries))
    ensures Run(deliveries).Some? && Run(deliveries).value.createdAt == deliveries[0].1
    ensures exists i: nat :: Wrote(deliveries, i, Run(deliveries).value)
  {
    var front, last := deliveries[..|deliveries| - 1], deliveries[|deliveries| - 1];
    assert deliveries == front + [last];
    FactsAppend(front, last);
    if front == [] {
      assert Run(front) == None && Wrote(deliveries, 0, Run(deliveries).value);
    } else {
      TimesOf(front);
      NewestWins(front);
      var i: nat :| Wrote(front, i, Run(front).value);
      WrittenNext(front, last, i, Run(front).value);
    }
  }

  lemma WrittenNext(front: seq<(Fact, int)>, last: (Fact, int), i: nat, before: Row)
    requires Wrote(front, i, before) && IsNewest(Facts(front), before.fact)
    ensures var t := Upserted(Some(before), last.0, last.1);
      t.Some? && t.value.createdAt == before.createdAt
      && (Wrote(front + [last], i, t.value) || Wrote(front + [last], |front|, t.value))
  {
    var t := Upserted(Some(before), last.0, last.1);
    SameFactKept(front, last, before);
    if t.value.fact != before.fact {
      forall j | 0 <= j < |front| ensures front[j].0 != t.value.fact {
        assert front[j].0 in Facts(front);
      }
    }
  }

  lemma SameFactKept(front: seq<(Fact, int)>, last: (Fact, int), before: Row)
    ensures var t := Upserted(Some(before), last.0, last.1); t.Some? && (t.value.fact == before.fact ==> t.value == before)
  {}

  /** Two facts give the same row in either order exactly when they are the same or differ in both the event
      and the timestamp: on a tie the first stays, and an event delivered with other contents is ignored. */
  lemma EitherOrderIff(f: Fact, g: Fact, now: int)
    ensures Upserted(Upserted(None, f, now), g, now) == Upserted(Upserted(None, g, now), f, now)
       <==> f == g || (f.eventId != g.eventId && f.syncedAt != g.syncedAt)
  {}

  class StockDailyTradingFactRepository {
    /** Instruments of a cash security type. */
    const cashInstruments: set<int>
    /** By instrument and day. */
    var rows: map<(int, int), Row>

    constructor (cashInstruments: set<int>)
      ensures this.cashInstruments == cashInstruments && rows == map[]
    {
      this.cashInstruments, this.rows := cashInstruments, map[];
    }

    function Get(instrumentId: int, tradingDay: int): Option<Row>
      reads this
    {
      if (instrumentId, tradingDay) in rows then Some(rows[(instrumentId, tradingDay)]) else None
    }

    /** Any other instrument raises. */
    method Upsert(instrumentId: int, tradingDay: int, f: Fact, updatedAt: int) returns (result: Result)
      modifies this`rows
      ensures result == if instrumentId in cashInstruments then Outcome(old(Get(instrumentId, tradingDay)), f) else NotCashSecurity
      ensures Get(instrumentId, tradingDay)
           == if instrumentId in cashInstruments then Upserted(old(Get(instrumentId, tradingDay)), f, updatedAt)
              else old(Get(instrumentId, tradingDay))
      ensures forall i, d :: (i, d) != (instrumentId, tradingDay) ==> Get(i, d) == old(Get(i, d))
      ensures var key := (instrumentId, tradingDay);
        && (forall k :: k != key || instrumentId !in cashInstruments ==>
              (k in rows <==> k in old(rows)) && (k in rows ==> rows[k] == old(rows)[k]))
        && (instrumentId in cashInstruments ==>
              key in rows && Some(rows[key]) == Upserted(if key in old(rows) then Some(old(rows)[key]) else None, f, updatedAt))
    {
      if instrumentId !in cashInstruments {
        return NotCashSecurity;
      }
      var key := (instrumentId, tradingDay);
      if key !in rows {
        rows := rows[key := Row(f, updatedAt, updatedAt)];
        return Inserted;
      }
      var current := rows[key];
      if current.fact.eventId == f.eventId {
        return Duplicate;
      }
      if f.syncedAt < current.fact.syncedAt {
        return IgnoredStale;
      }
      if f.syncedAt == current.fact.syncedAt {
        return ConflictSameTimestamp;
      }
      rows := rows[key := current.(fact := f, updatedAt := updatedAt)];
      return Updated;
    }
  }
}

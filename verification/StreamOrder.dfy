/** Redis Stream identifiers, the events they order, and the two filters of the gateway: the sorted flush
    of a snapshot buffer and the "newer than the last one" test. */
module StreamOrder {

  /** A Stream identifier `milliseconds-sequence`, compared as a pair. */
  datatype StreamId = StreamId(ms: nat, seqNo: nat)

  /** The cursor of an empty stream, and the value of every malformed version. */
  const ORIGIN := StreamId(0, 0)

  predicate Less(a: StreamId, b: StreamId) {
    a.ms < b.ms || (a.ms == b.ms && a.seqNo < b.seqNo)
  }

  predicate AtMost(a: StreamId, b: StreamId) {
    !Less(b, a)
  }

  /** A routed event. The empty account id stands for an envelope without an account. */
  datatype Envelope = Envelope(accountId: string, version: StreamId, body: string)

  ghost predicate Increasing(s: seq<Envelope>) {
    forall i, j :: 0 <= i < j < |s| ==> Less(s[i].version, s[j].version)
  }

  ghost predicate NonDecreasing(s: seq<Envelope>) {
    forall i, j :: 0 <= i < j < |s| ==> AtMost(s[i].version, s[j].version)
  }

  ghost predicate DistinctVersions(s: seq<Envelope>) {
    forall i, j :: 0 <= i < j < |s| ==> s[i].version != s[j].version
  }

  // --- Filters; all recurse on the last element because streams and queues grow at the end.

  /** The events of `s` newer than `c`, in order. */
  function Above(s: seq<Envelope>, c: StreamId): (r: seq<Envelope>) {
    if s == [] then [] else
      var front := Above(s[..|s| - 1], c);
      if Less(c, s[|s| - 1].version) then front + [s[|s| - 1]] else front
  }

  lemma {:induction false} AboveContains(s: seq<Envelope>, c: StreamId, e: Envelope)
    ensures e in Above(s, c) <==> e in s && Less(c, e.version)
  {
    if s != [] {
      AboveContains(s[..|s| - 1], c, e);
      assert s == s[..|s| - 1] + [s[|s| - 1]];
    }
  }

  /** The events of account `a` in `s` newer than `c`, in order. */
  function Select(s: seq<Envelope>, a: string, c: StreamId): (r: seq<Envelope>) {
    if s == [] then [] else
      var front := Select(s[..|s| - 1], a, c);
      if s[|s| - 1].accountId == a && Less(c, s[|s| - 1].version) then front + [s[|s| - 1]] else front
  }

  lemma {:induction false} SelectContains(s: seq<Envelope>, a: string, c: StreamId, e: Envelope)
    ensures e in Select(s, a, c) <==> e in s && e.accountId == a && Less(c, e.version)
  {
    if s != [] {
      SelectContains(s[..|s| - 1], a, c, e);
      assert s == s[..|s| - 1] + [s[|s| - 1]];
    }
  }

  lemma AboveAppend(s: seq<Envelope>, e: Envelope, c: StreamId)
    ensures Above(s + [e], c) == if Less(c, e.version) then Above(s, c) + [e] else Above(s, c)
  {
    assert (s + [e])[..|s|] == s;
  }

  lemma SelectAppend(s: seq<Envelope>, e: Envelope, a: string, c: StreamId)
    ensures Select(s + [e], a, c)
         == if e.accountId == a && Less(c, e.version) then Select(s, a, c) + [e] else Select(s, a, c)
  {
    assert (s + [e])[..|s|] == s;
  }

  /** A selection from an increasing stream is increasing. */
  lemma {:induction false} SelectIncreasing(s: seq<Envelope>, a: string, c: StreamId)
    requires Increasing(s)
    ensures Increasing(Select(s, a, c))
  {
    if s != [] {
      var front := s[..|s| - 1];
      SelectIncreasing(front, a, c);
      forall e | e in Select(front, a, c) ensures Less(e.version, s[|s| - 1].version) {
        SelectContains(front, a, c, e);
      }
    }
  }

  /** Nothing in a stream is newer than a cursor at or past all of it. */
  lemma SelectNothing(s: seq<Envelope>, a: string, c: StreamId)
    requires forall e :: e in s ==> AtMost(e.version, c)
    ensures Select(s, a, c) == []
  {
    if Select(s, a, c) != [] {
      SelectContains(s, a, c, Select(s, a, c)[0]);
      assert false;
    }
  }

  // --- The stable sort of a snapshot buffer.

  /** Insert after every element that is not newer: what a stable sort does with the next element. */
  function Insert(s: seq<Envelope>, e: Envelope): seq<Envelope> {
    if s == [] || AtMost(s[|s| - 1].version, e.version) then s + [e]
    else Insert(s[..|s| - 1], e) + [s[|s| - 1]]
  }

  function SortByVersion(s: seq<Envelope>): seq<Envelope> {
    if s == [] then [] else Insert(SortByVersion(s[..|s| - 1]), s[|s| - 1])
  }

  lemma {:induction false} InsertAdds(s: seq<Envelope>, e: Envelope)
    ensures multiset(Insert(s, e)) == multiset(s) + multiset{e}
  {
    if s != [] && !AtMost(s[|s| - 1].version, e.version) {
      assert s == s[..|s| - 1] + [s[|s| - 1]];
      InsertAdds(s[..|s| - 1], e);
    }
  }

  lemma {:induction false} InsertSorted(s: seq<Envelope>, e: Envelope)
    requires NonDecreasing(s)
    ensures NonDecreasing(Insert(s, e))
  {
    if s != [] && !AtMost(s[|s| - 1].version, e.version) {
      var front, z := s[..|s| - 1], s[|s| - 1];
      InsertSorted(front, e);
      InsertAdds(front, e);
      forall x | x in Insert(front, e) ensures AtMost(x.version, z.version) {
        assert x in multiset(front) + multiset{e};
      }
    }
  }

  /** The sort is a permutation into version order. */
  lemma {:induction false} SortSorts(s: seq<Envelope>)
    ensures multiset(SortByVersion(s)) == multiset(s)
    ensures NonDecreasing(SortByVersion(s))
  {
    if s != [] {
      var front := s[..|s| - 1];
      assert s == front + [s[|s| - 1]];
      SortSorts(front);
      InsertSorted(SortByVersion(front), s[|s| - 1]);
      InsertAdds(SortByVersion(front), s[|s| - 1]);
    }
  }

  /** Sorting a sequence already in order changes nothing. */
  lemma {:induction false} SortOfSorted(s: seq<Envelope>)
    requires NonDecreasing(s)
    ensures SortByVersion(s) == s
  {
    if s != [] {
      SortOfSorted(s[..|s| - 1]);
      assert s == s[..|s| - 1] + [s[|s| - 1]];
    }
  }

  lemma InsertLast(s: seq<Envelope>, e: Envelope, c: StreamId)
    requires s == [] || AtMost(s[|s| - 1].version, e.version)
    requires NonDecreasing(s) && Less(c, e.version)
    ensures Insert(Above(s, c), e) == Above(s, c) + [e]
  {
    forall x | x in Above(s, c) ensures AtMost(x.version, e.version) {
      AboveContains(s, c, x);
    }
  }

  lemma {:induction false} AboveOfInsert(s: seq<Envelope>, e: Envelope, c: StreamId)
    requires NonDecreasing(s)
    ensures Above(Insert(s, e), c) == if Less(c, e.version) then Insert(Above(s, c), e) else Above(s, c)
  {
    if s == [] || AtMost(s[|s| - 1].version, e.version) {
      AboveAppend(s, e, c);
      if Less(c, e.version) {
        InsertLast(s, e, c);
      }
    } else {
      var front, z := s[..|s| - 1], s[|s| - 1];
      assert s == front + [z];
      AboveOfInsert(front, e, c);
      AboveAppend(Insert(front, e), z, c);
      AboveAppend(front, z, c);
    }
  }

  /** Dropping the events a cursor covers commutes with the stable sort. */
  lemma {:induction false} AboveOfSort(s: seq<Envelope>, c: StreamId)
    ensures Above(SortByVersion(s), c) == SortByVersion(Above(s, c))
  {
    if s != [] {
      var front, e := s[..|s| - 1], s[|s| - 1];
      AboveOfSort(front, c);
      SortSorts(front);
      AboveOfInsert(SortByVersion(front), e, c);
      if Less(c, e.version) {
        assert (Above(front, c) + [e])[..|Above(front, c)|] == Above(front, c);
      }
    }
  }

  // --- Live delivery.

  /** The version a connection remembers after delivering `s` on top of `last`. */
  function Newest(last: StreamId, s: seq<Envelope>): StreamId {
    if s == [] then last else s[|s| - 1].version
  }

  /** What a live connection accepts of `s`: each event newer than everything accepted before it. */
  function Records(last: StreamId, s: seq<Envelope>): (r: seq<Envelope>) {
    if s == [] then [] else
      var front := Records(last, s[..|s| - 1]);
      if Less(Newest(last, front), s[|s| - 1].version) then front + [s[|s| - 1]] else front
  }

  /** What one account's connection receives after its snapshot at `cursor`, when `buffered` was
      routed while the snapshot was loading and `live` after it. */
  function Replay(cursor: StreamId, buffered: seq<Envelope>, live: seq<Envelope>): seq<Envelope> {
    var flushed := Above(SortByVersion(buffered), cursor);
    flushed + Records(Newest(cursor, flushed), live)
  }

  /** The remembered version bounds everything seen so far, delivered or dropped. */
  lemma {:induction false} NewestBoundsRecords(last: StreamId, s: seq<Envelope>)
    ensures AtMost(last, Newest(last, Records(last, s)))
    ensures forall e :: e in s ==> AtMost(e.version, Newest(last, Records(last, s)))
    ensures Newest(last, Records(last, s)) == last || exists e :: e in s && e.version == Newest(last, Records(last, s))
  {
    if s != [] {
      NewestBoundsRecords(last, s[..|s| - 1]);
      assert s == s[..|s| - 1] + [s[|s| - 1]];
      assert s[|s| - 1] in s;
    }
  }

  /** Whatever order events are routed in, a live connection receives exactly those newer than the
      starting version and than every event routed before them. */
  lemma LiveEventDeliveredIff(last: StreamId, s: seq<Envelope>, i: nat)
    requires i < |s|
    ensures Records(last, s[..i + 1]) == Records(last, s[..i]) + [s[i]]
       <==> Less(last, s[i].version) && forall j :: 0 <= j < i ==> Less(s[j].version, s[i].version)
  {
    assert s[..i + 1][..i] == s[..i];
    NewestBoundsRecords(last, s[..i]);
    var newest := Newest(last, Records(last, s[..i]));
    if Less(newest, s[i].version) {
      forall j | 0 <= j < i ensures Less(s[j].version, s[i].version) {
        assert s[j] in s[..i];
      }
    } else if newest != last {
      var e :| e in s[..i] && e.version == newest;
      var j :| 0 <= j < i && s[j] == e;
    }
  }

  lemma {:induction false} RecordsIncreasing(last: StreamId, s: seq<Envelope>)
    ensures Increasing(Records(last, s))
    ensures forall e :: e in Records(last, s) ==> e in s && Less(last, e.version)
  {
    if s != [] {
      var front := s[..|s| - 1];
      RecordsIncreasing(last, front);
      NewestBoundsRecords(last, front);
      assert s == front + [s[|s| - 1]];
      forall e | e in Records(last, front) ensures AtMost(e.version, Newest(last, Records(last, front))) {
        assert e in front;
      }
    }
  }

  /** A live connection loses nothing newer than `last` exactly when those events were routed in
      strictly increasing order. */
  lemma {:induction false} LiveLosesNothingIff(last: StreamId, s: seq<Envelope>)
    ensures Records(last, s) == Above(s, last) <==> Increasing(Above(s, last))
  {
    RecordsIncreasing(last, s);
    if Increasing(Above(s, last)) {
      LiveKeepsIncreasing(last, s);
    }
  }

  lemma {:induction false} LiveKeepsIncreasing(last: StreamId, s: seq<Envelope>)
    requires Increasing(Above(s, last))
    ensures Records(last, s) == Above(s, last)
  {
    if s != [] {
      var kept, all := Above(s[..|s| - 1], last), Above(s, last);
      assert kept == all[..|kept|];
      LiveKeepsIncreasing(last, s[..|s| - 1]);
      if kept != [] {
        AboveContains(s[..|s| - 1], last, kept[|kept| - 1]);
        assert |all| > |kept| ==> Less(all[|kept| - 1].version, all[|kept|].version);
      }
    }
  }

  /** Two increasing runs, the second above the last version of the first, join into one. */
  lemma JoinIncreasing(c: StreamId, s: seq<Envelope>, t: seq<Envelope>)
    requires NonDecreasing(s) && Increasing(t)
    requires forall e :: e in t ==> Less(Newest(c, s), e.version)
    ensures Increasing(s + t) <==> DistinctVersions(s)
  {
    var all := s + t;
    assert forall i :: 0 <= i < |s| ==> all[i] == s[i];
    assert forall j :: 0 <= j < |t| ==> all[|s| + j] == t[j];
    if DistinctVersions(s) {
      forall i, j | 0 <= i < j < |all| ensures Less(all[i].version, all[j].version) {
        if i < |s| <= j {
          assert AtMost(s[i].version, s[|s| - 1].version);
          assert all[j] == t[j - |s|];
        } else if i >= |s| {
          assert all[i] == t[i - |s|] && all[j] == t[j - |s|];
        }
      }
    } else {
      var i, j :| 0 <= i < j < |s| && s[i].version == s[j].version;
      assert !Less(all[i].version, all[j].version);
    }
  }

  /** The whole window: what is delivered after a snapshot is in strictly increasing order exactly
      when no version newer than the cursor was buffered twice. */
  lemma ReplayIncreasingIff(cursor: StreamId, buffered: seq<Envelope>, live: seq<Envelope>)
    ensures Increasing(Replay(cursor, buffered, live)) <==> DistinctVersions(Above(buffered, cursor))
  {
    var flushed := Above(SortByVersion(buffered), cursor);
    AboveOfSort(buffered, cursor);
    SortSorts(Above(buffered, cursor));
    RecordsIncreasing(Newest(cursor, flushed), live);
    DistinctIsOrderFree(Above(buffered, cursor), flushed);
    JoinIncreasing(cursor, flushed, Records(Newest(cursor, flushed), live));
  }

  /** Having a repeated version does not depend on order. */
  lemma DistinctIsOrderFree(s: seq<Envelope>, t: seq<Envelope>)
    requires multiset(s) == multiset(t)
    ensures DistinctVersions(s) <==> DistinctVersions(t)
  {
    if DistinctVersions(s) { DistinctTransfers(s, t); }
    if DistinctVersions(t) { DistinctTransfers(t, s); }
  }

  lemma {:induction false} DistinctTransfers(s: seq<Envelope>, t: seq<Envelope>)
    requires multiset(s) == multiset(t) && DistinctVersions(s)
    ensures DistinctVersions(t)
  {
    forall i, j | 0 <= i < j < |t| ensures t[i].version != t[j].version {
      if t[i].version == t[j].version {
        assert t[i] in multiset(s) && t[j] in multiset(s);
        assert t[i] in s && t[j] in s;
        assert t[i] == t[j];
        TwiceInMultiset(t, i, j);
        OnceInMultiset(s, t[i]);
        assert false;
      }
    }
  }

  lemma {:induction false} TwiceInMultiset(t: seq<Envelope>, i: nat, j: nat)
    requires i < j < |t| && t[i] == t[j]
    ensures multiset(t)[t[i]] >= 2
  {
    assert t == t[..i] + [t[i]] + t[i + 1..j] + [t[j]] + t[j + 1..];
  }

  lemma {:induction false} OnceInMultiset(s: seq<Envelope>, e: Envelope)
    requires DistinctVersions(s)
    ensures multiset(s)[e] <= 1
  {
    if s != [] {
      var front := s[..|s| - 1];
      assert s == front + [s[|s| - 1]];
      OnceInMultiset(front, e);
      if s[|s| - 1] == e && multiset(front)[e] >= 1 {
        assert false;
      }
    }
  }

  /** No loss and no duplicate: if the events newer than the cursor are routed in strictly increasing
      order across the window, they are delivered exactly, once each and in order. */
  lemma ReplayExact(cursor: StreamId, buffered: seq<Envelope>, live: seq<Envelope>)
    requires Increasing(Above(buffered + live, cursor))
    ensures Replay(cursor, buffered, live) == Above(buffered + live, cursor)
  {
    var kept, rest := Above(buffered, cursor), Above(live, cursor);
    AboveConcat(buffered, live, cursor);
    forall e | e in rest ensures Less(cursor, e.version) {
      AboveContains(live, cursor, e);
    }
    SplitIncreasing(cursor, kept, rest);
    AboveOfSort(buffered, cursor);
    SortOfSorted(kept);
    if kept != [] {
      AboveContains(buffered, cursor, kept[|kept| - 1]);
    }
    AboveNewer(live, cursor, Newest(cursor, kept));
    LiveKeepsIncreasing(Newest(cursor, kept), live);
  }

  lemma SplitIncreasing(c: StreamId, s: seq<Envelope>, t: seq<Envelope>)
    requires Increasing(s + t) && forall e :: e in t ==> Less(c, e.version)
    ensures Increasing(s) && Increasing(t)
    ensures forall e :: e in t ==> Less(Newest(c, s), e.version)
  {
    var all := s + t;
    assert forall i :: 0 <= i < |s| ==> all[i] == s[i];
    assert forall j :: 0 <= j < |t| ==> all[|s| + j] == t[j];
    forall i, j | 0 <= i < j < |t| ensures Less(t[i].version, t[j].version) {
      assert Less(all[|s| + i].version, all[|s| + j].version);
    }
    forall e | e in t ensures Less(Newest(c, s), e.version) {
      var j :| 0 <= j < |t| && t[j] == e;
      if s != [] {
        assert Less(all[|s| - 1].version, all[|s| + j].version);
      }
    }
  }

  lemma {:induction false} AboveConcat(s: seq<Envelope>, t: seq<Envelope>, c: StreamId)
    ensures Above(s + t, c) == Above(s, c) + Above(t, c)
  {
    if t == [] {
      assert s + t == s;
    } else {
      AboveConcat(s, t[..|t| - 1], c);
      assert s + t == (s + t[..|t| - 1]) + [t[|t| - 1]];
      AboveAppend(s + t[..|t| - 1], t[|t| - 1], c);
    }
  }

  /** Raising the cursor to a version no selected event is at or below changes nothing. */
  lemma {:induction false} AboveNewer(s: seq<Envelope>, c: StreamId, d: StreamId)
    requires AtMost(c, d) && forall e :: e in Above(s, c) ==> Less(d, e.version)
    ensures Above(s, d) == Above(s, c)
  {
    if s != [] {
      AboveNewer(s[..|s| - 1], c, d);
    }
  }

  /** A message first routed after a later one (its reader stalled with it, say) never reaches a live
      connection, although no event is a duplicate. */
  lemma LateFirstDeliveryIsDropped(cursor: StreamId, early: Envelope, late: Envelope)
    requires Less(cursor, early.version) && Less(early.version, late.version)
    ensures Replay(cursor, [], [late, early]) == [late]
  {
    assert [late, early][..1] == [late];
    assert Records(cursor, [late]) == [late];
  }
}

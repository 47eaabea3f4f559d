/** The account risk queue: the versioned dirty queue with per-account counters that are never deleted, a
    scan without an overflow buffer, and a writer lease. */
module RiskDirty {
  import opened Options
  import opened DirtyQueue
  import opened DirtyScan
  import L = Leases

  /** What one scan hands out of a page: its first `batch` distinct members. */
  function Head(page: seq<string>, batch: nat): seq<string> {
    var ids := Extend([], page);
    ids[..Min(batch, |ids|)]
  }

  /** The cursor after `n` scans of the same pages. */
  function CursorAfter(pages: seq<seq<string>>, cursor: nat, n: nat): nat {
    if n == 0 then cursor else NextCursor(pages, CursorAfter(pages, cursor, n - 1))
  }

  /** Scan number `n` hands out `id`. */
  predicate Reached(pages: seq<seq<string>>, batch: nat, cursor: nat, n: nat, id: string) {
    id in Head(PageAt(pages, CursorAfter(pages, cursor, n)), batch)
  }

  lemma {:induction false} CursorRound(pages: seq<seq<string>>, cursor: nat, n: nat)
    requires cursor < |pages|
    ensures CursorAfter(pages, cursor, n) < |pages|
    ensures n < |pages| ==>
      CursorAfter(pages, cursor, n) == if cursor + n < |pages| then cursor + n else cursor + n - |pages|
  {
    if n > 0 {
      CursorRound(pages, cursor, n - 1);
    }
  }

  /** A page hands out the members that fewer than `batch` different ones come before. */
  lemma HeadIff(page: seq<string>, batch: nat, id: string)
    ensures id in Head(page, batch) <==> exists i :: 0 <= i < |page| && page[i] == id && id !in page[..i] && |(set x | x in page[..i])| < batch
    ensures |Head(page, batch)| <= batch
  {
    if id in page {
      FirstAt(page, id);
      var i :| 0 <= i < |page| && page[i] == id && id !in page[..i];
      ExtendedAt(page, i);
      ExtendDistinct(page);
      var ids, k := Extend([], page), |Extend([], page[..i])|;
      assert ids[k] == id;
      EarlierIsBefore(page);
    } else {
      ExtendedContains(page, id);
      assert id in Head(page, batch) ==> id in Extend([], page);
    }
  }

  lemma EarlierIsBefore(page: seq<string>)
    ensures forall i, j :: 0 <= i < j <= |page| ==> page[i] in page[..j]
  {
    forall i, j | 0 <= i < j <= |page| ensures page[i] in page[..j] {
      assert page[..j][i] == page[i];
    }
  }

  lemma {:induction false} FirstAt(page: seq<string>, id: string)
    requires id in page
    ensures exists i :: 0 <= i < |page| && page[i] == id && id !in page[..i]
  {
    var n := |page| - 1;
    if id in page[..n] {
      FirstAt(page[..n], id);
      var i :| 0 <= i < n && page[..n][i] == id && id !in page[..n][..i];
      assert page[..n][..i] == page[..i];
    } else {
      assert page[n] == id;
    }
  }

  lemma {:induction false} ExtendedContains(page: seq<string>, id: string)
    ensures id in Extend([], page) <==> id in page
  {
    if page != [] {
      ExtendedContains(page[..|page| - 1], id);
      assert page == page[..|page| - 1] + [page[|page| - 1]];
    }
  }

  lemma {:induction false} ExtendDistinct(page: seq<string>)
    ensures Distinct(Extend([], page)) && |Extend([], page)| == |(set x | x in page)|
  {
    if page != [] {
      var front, last := page[..|page| - 1], page[|page| - 1];
      ExtendDistinct(front);
      ExtendedContains(front, last);
      assert page == front + [last];
      assert (set x | x in page) == (set x | x in front) + {last};
    }
  }

  /** A member not seen before takes the place after all the different ones before it. */
  lemma {:induction false} ExtendedAt(page: seq<string>, i: nat)
    requires i < |page| && page[i] !in page[..i]
    ensures var k := |Extend([], page[..i])|;
      k == |(set x | x in page[..i])| < |Extend([], page)| && Extend([], page)[k] == page[i]
  {
    ExtendDistinct(page[..i]);
    var n := |page| - 1;
    if i == n {
      ExtendedContains(page[..i], page[i]);
    } else {
      ExtendedAt(page[..n], i);
      assert page[..n][..i] == page[..i];
    }
  }

  /** Over a stable set, an account is handed out at all exactly when it is among the first `batch` of some
      page, and then within one round; the members a page holds beyond the batch starve. */
  lemma ReachedIff(pages: seq<seq<string>>, batch: nat, cursor: nat, id: string)
    requires cursor < |pages|
    ensures (exists n: nat :: Reached(pages, batch, cursor, n, id))
       <==> exists c :: 0 <= c < |pages| && id in Head(pages[c], batch)
    ensures (exists n: nat :: Reached(pages, batch, cursor, n, id))
       <==> exists n :: 0 <= n < |pages| && Reached(pages, batch, cursor, n, id)
  {
    if c :| 0 <= c < |pages| && id in Head(pages[c], batch) {
      var n := if c >= cursor then c - cursor else c + |pages| - cursor;
      CursorRound(pages, cursor, n);
      assert Reached(pages, batch, cursor, n, id);
    }
    if n: nat :| Reached(pages, batch, cursor, n, id) {
      CursorRound(pages, cursor, n);
      assert id in Head(pages[CursorAfter(pages, cursor, n)], batch);
    }
  }

  /** For instance, with one page of two accounts and a batch of one the second is never handed out. */
  lemma SecondStarves(n: nat)
    ensures !Reached([["a", "b"]], 1, 0, n, "b")
  {
    var page := ["a", "b"];
    assert page[..1] == ["a"] && page[..1][..0] == [];
    assert Extend([], page[..1]) == ["a"];
    assert Extend([], page) == ["a", "b"];
    CursorRound([page], 0, n);
  }

  class RiskStore {
    var dirtyAccounts: set<string>
    var dirtyVersions: map<string, nat>
    var processedTriggers: set<string>
    var rawCursor: Option<nat>
    var lease: Option<string>

    constructor ()
      ensures Queue() == EMPTY && rawCursor == None && lease == None
    {
      dirtyAccounts, dirtyVersions, processedTriggers := {}, map[], {};
      rawCursor, lease := None, None;
    }

    ghost function Queue(): Queue
      reads this
    {
      DirtyQueue.Queue(dirtyAccounts, dirtyVersions, 0, processedTriggers)
    }

    method MarkDirty(accountId: string) returns (version: nat)
      modifies this`dirtyVersions, this`dirtyAccounts
      ensures Queue() == Next(RISK, old(Queue()), Mark(accountId))
      ensures Holds(Queue(), accountId, version)
    {
      version := if accountId in dirtyVersions then dirtyVersions[accountId] + 1 else 1;
      dirtyVersions := dirtyVersions[accountId := version];
      dirtyAccounts := dirtyAccounts + {accountId};
    }

    method MarkDirtyOnce(accountId: string, eventId: string) returns (version: Option<nat>)
      modifies this`dirtyVersions, this`dirtyAccounts, this`processedTriggers
      ensures Queue() == Next(RISK, old(Queue()), MarkOnce(accountId, eventId))
      ensures version.None? <==> eventId in old(processedTriggers)
      ensures version.Some? ==> Holds(Queue(), accountId, version.value)
    {
      if eventId in processedTriggers {
        return None;
      }
      var marked := MarkDirty(accountId);
      processedTriggers := processedTriggers + {eventId};
      return Some(marked);
    }

    /** Each distinct account is marked once, in order of first appearance. */
    method MarkManyDirty(accountIds: seq<string>) returns (count: nat)
      modifies this`dirtyVersions, this`dirtyAccounts
      ensures count == |Extend([], accountIds)|
      ensures Queue() == MarkAll(old(Queue()), Extend([], accountIds))
    {
      var ids := Extend([], accountIds);
      count := 0;
      while count < |ids|
        invariant count <= |ids| && Queue() == MarkAll(old(Queue()), ids[..count])
      {
        assert ids[..count + 1][..count] == ids[..count];
        var _ := MarkDirty(ids[count]);
        count := count + 1;
      }
      assert ids[..|ids|] == ids;
    }

    /** `pages` are the SSCAN replies. */
    method ListDirty(batchSize: int, pages: seq<seq<string>>) returns (result: seq<(string, nat)>)
      modifies this`rawCursor
      ensures batchSize <= 0 ==> result == [] && rawCursor == old(rawCursor)
      ensures batchSize > 0 ==>
        var cursor: nat := if old(rawCursor).Some? then old(rawCursor).value else 0;
        && rawCursor == Some(NextCursor(pages, cursor))
        && result == Versioned(Head(PageAt(pages, cursor), batchSize), dirtyVersions)
    {
      if batchSize <= 0 {
        return [];
      }
      var cursor: nat := if rawCursor.Some? then rawCursor.value else 0;
      var members := PageAt(pages, cursor);
      rawCursor := Some(NextCursor(pages, cursor));
      var ids := Extend([], members);
      ids := ids[..Min(batchSize, |ids|)];
      result := [];
      for i := 0 to |ids|
        invariant result == Versioned(ids[..i], dirtyVersions)
      {
        assert ids[..i + 1][..i] == ids[..i];
        if ids[i] in dirtyVersions {
          result := result + [(ids[i], dirtyVersions[ids[i]])];
        }
      }
      assert ids[..|ids|] == ids;
    }

    method CompleteDirty(accountId: string, expectedVersion: nat) returns (completed: bool)
      modifies this`dirtyAccounts
      ensures Queue() == Next(RISK, old(Queue()), Complete(accountId, expectedVersion))
      ensures completed == Clears(old(Queue()), Complete(accountId, expectedVersion), accountId)
    {
      completed := accountId in dirtyVersions && dirtyVersions[accountId] == expectedVersion;
      if completed {
        dirtyAccounts := dirtyAccounts - {accountId};
      }
    }

    method AcquireLease(owner: string) returns (acquired: bool)
      modifies this`lease
      ensures acquired == (old(lease) == None) && lease == (if acquired then Some(owner) else old(lease))
      ensures lease == L.Next(old(lease), L.Acquire(owner))
    {
      acquired := lease.None?;
      if acquired {
        lease := Some(owner);
      }
    }

    method ReleaseLease(owner: string) returns (released: bool)
      modifies this`lease
      ensures released == (old(lease) == Some(owner)) && lease == (if released then None else old(lease))
      ensures lease == L.Next(old(lease), L.Release(owner))
    {
      released := lease == Some(owner);
      if released {
        lease := None;
      }
    }
  }

  function MarkAll(q: Queue, ids: seq<string>): Queue {
    if ids == [] then q else Next(RISK, MarkAll(q, ids[..|ids| - 1]), Mark(ids[|ids| - 1]))
  }

  /** Marking many accounts marks each exactly once more and touches no other account. */
  lemma {:induction false} MarkAllMarks(q: Queue, ids: seq<string>)
    requires Distinct(ids)
    ensures var t := MarkAll(q, ids);
      && t.dirty == q.dirty + (set id | id in ids)
      && t.markers == q.markers && t.versions.Keys == q.versions.Keys + (set id | id in ids)
      && (forall id :: id in ids ==> t.versions[id] == (if id in q.versions then q.versions[id] else 0) + 1)
      && (forall id :: id in q.versions && id !in ids ==> t.versions[id] == q.versions[id])
  {
    if ids != [] {
      var front, last := ids[..|ids| - 1], ids[|ids| - 1];
      assert ids == front + [last] && last !in front;
      MarkAllMarks(q, front);
      var f, t := MarkAll(q, front), MarkAll(q, ids);
      assert t.dirty == q.dirty + (set id | id in ids);
      assert NextVersion(RISK, f, last) == (if last in q.versions then q.versions[last] else 0) + 1;
    }
  }
}

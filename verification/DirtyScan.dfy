/** How workers read the dirty sets: a persisted SSCAN cursor, a batch filled page by page, and an overflow
    buffer for what the last page returned beyond the batch. */
module DirtyScan {
  import opened Options
  import Q = CallerVersions

  /** The buffer and cursor kept in Redis between calls. */
  datatype Scan = Scan(buffer: seq<string>, cursor: nat)
  datatype Outcome = Outcome(ids: seq<string>, scan: Scan)
  datatype Collected = Collected(taken: seq<string>, overflow: seq<string>, cursor: nat)

  ghost predicate Distinct(s: seq<string>) {
    forall i, j :: 0 <= i < j < |s| ==> s[i] != s[j]
  }

  function Min(a: int, b: int): int {
    if a < b then a else b
  }

  /** The known ids followed by those of a page not seen before. */
  function Extend(known: seq<string>, page: seq<string>): seq<string> {
    if page == [] then known else
      var front, last := Extend(known, page[..|page| - 1]), page[|page| - 1];
      if last in front then front else front + [last]
  }

  /** SSCAN as the pages one call is answered with; cursor 0 starts and ends an iteration. */
  function PageAt(pages: seq<seq<string>>, cursor: nat): seq<string> {
    if cursor < |pages| then pages[cursor] else []
  }

  function NextCursor(pages: seq<seq<string>>, cursor: nat): nat {
    if cursor + 1 < |pages| then cursor + 1 else 0
  }

  /** The scanning loop, entered with a batch not yet full. */
  function Collect(pages: seq<seq<string>>, batch: nat, start: nat, first: bool, cursor: nat, taken: seq<string>): Collected
    requires |taken| < batch
    decreases |pages| - cursor
  {
    var all, next := Extend(taken, PageAt(pages, cursor)), NextCursor(pages, cursor);
    if |all| >= batch || next == 0 || (!first && next == start) then
      Collected(all[..Min(batch, |all|)], all[Min(batch, |all|)..], next)
    else
      Collect(pages, batch, start, false, next, all)
  }

  /** What the loop still does from a given point of a call. */
  function Remaining(pages: seq<seq<string>>, batch: nat, start: nat, first: bool, cursor: nat, taken: seq<string>, buffer: seq<string>): Outcome {
    if |taken| >= batch then Outcome(taken, Scan(buffer, cursor)) else
      var r := Collect(pages, batch, start, first, cursor, taken);
      Outcome(r.taken, Scan(buffer + r.overflow, r.cursor))
  }

  /** One call: drain the buffer first, scan only for what is missing. */
  function Call(s: Scan, batch: int, pages: seq<seq<string>>): Outcome {
    if batch <= 0 then Outcome([], s) else
      var take := Min(batch, |s.buffer|);
      var ids := Extend([], s.buffer[..take]);
      Remaining(pages, batch, s.cursor, true, s.cursor, ids, s.buffer[take..])
  }

  lemma RemainingStep(pages: seq<seq<string>>, batch: nat, start: nat, first: bool, cursor: nat, taken: seq<string>, buffer: seq<string>)
    requires |taken| < batch
    ensures var all, next := Extend(taken, PageAt(pages, cursor)), NextCursor(pages, cursor);
      var ids, overflow := all[..Min(batch, |all|)], all[Min(batch, |all|)..];
      Remaining(pages, batch, start, first, cursor, taken, buffer)
      == if next == 0 || (!first && next == start) then Outcome(ids, Scan(buffer + overflow, next))
         else Remaining(pages, batch, start, false, next, ids, buffer + overflow)
  {
    var all, next := Extend(taken, PageAt(pages, cursor)), NextCursor(pages, cursor);
    if |all| < batch && next != 0 && (first || next != start) {
      assert all[..|all|] == all && buffer + all[|all|..] == buffer;
    }
  }

  /** The ids a call hands out are those that have a version. */
  function Versioned<V>(ids: seq<string>, versions: map<string, V>): seq<(string, V)> {
    if ids == [] then [] else
      var front, last := Versioned(ids[..|ids| - 1], versions), ids[|ids| - 1];
      if last in versions then front + [(last, versions[last])] else front
  }

  // --- What extending does.

  lemma {:induction false} ExtendGrows(known: seq<string>, page: seq<string>)
    ensures |known| <= |Extend(known, page)| <= |known| + |page|
    ensures Extend(known, page)[..|known|] == known
  {
    if page != [] {
      ExtendGrows(known, page[..|page| - 1]);
    }
  }

  lemma {:induction false} ExtendContains(known: seq<string>, page: seq<string>, id: string)
    ensures id in Extend(known, page) <==> id in known || id in page
  {
    if page != [] {
      ExtendContains(known, page[..|page| - 1], id);
      assert page == page[..|page| - 1] + [page[|page| - 1]];
    }
  }

  lemma {:induction false} ExtendDistinct(known: seq<string>, page: seq<string>)
    requires Distinct(known)
    ensures Distinct(Extend(known, page))
  {
    if page != [] {
      ExtendDistinct(known, page[..|page| - 1]);
    }
  }

  lemma {:induction false} ExtendOfDistinct(page: seq<string>)
    requires Distinct(page)
    ensures Extend([], page) == page
  {
    if page != [] {
      var front := page[..|page| - 1];
      ExtendOfDistinct(front);
      assert page == front + [page[|page| - 1]];
    }
  }

  lemma {:induction false} VersionedContains<V>(ids: seq<string>, versions: map<string, V>, id: string, version: V)
    ensures (id, version) in Versioned(ids, versions) <==> id in ids && id in versions && versions[id] == version
  {
    if ids != [] {
      VersionedContains(ids[..|ids| - 1], versions, id, version);
      assert ids == ids[..|ids| - 1] + [ids[|ids| - 1]];
    }
  }

  // --- Each call.

  /** The overflow comes from the one page at which the loop stopped. */
  lemma {:induction false} CollectShape(pages: seq<seq<string>>, batch: nat, start: nat, first: bool, cursor: nat, taken: seq<string>)
    requires |taken| < batch && Distinct(taken)
    ensures var r := Collect(pages, batch, start, first, cursor, taken);
      && |taken| <= |r.taken| <= batch && r.taken[..|taken|] == taken
      && Distinct(r.taken + r.overflow)
      && (r.overflow == [] || exists c :: 0 <= c < |pages| && |r.overflow| <= |pages[c]|)
    decreases |pages| - cursor
  {
    var page := PageAt(pages, cursor);
    var all := Extend(taken, page);
    ExtendGrows(taken, page);
    ExtendDistinct(taken, page);
    var r := Collect(pages, batch, start, first, cursor, taken);
    if |all| >= batch || NextCursor(pages, cursor) == 0 || (!first && NextCursor(pages, cursor) == start) {
      assert r.taken + r.overflow == all;
    } else {
      CollectShape(pages, batch, start, false, NextCursor(pages, cursor), all);
      assert r.taken[..|taken|] == r.taken[..|all|][..|taken|];
    }
  }

  /** Every call returns at most a batch of distinct ids, keeps the buffer free of repetitions, and lets it
      hold no more than it held or than one page. */
  lemma CallShape(s: Scan, batch: int, pages: seq<seq<string>>)
    requires Distinct(s.buffer)
    ensures var r := Call(s, batch, pages);
      && (batch > 0 ==> |r.ids| <= batch) && Distinct(r.ids) && Distinct(r.scan.buffer)
      && (|r.scan.buffer| <= |s.buffer| || exists c :: 0 <= c < |pages| && |r.scan.buffer| <= |pages[c]|)
  {
    if batch > 0 {
      var take := Min(batch, |s.buffer|);
      ExtendOfDistinct(s.buffer[..take]);
      if take < batch {
        CollectShape(pages, batch, s.cursor, true, s.cursor, s.buffer[..take]);
        var r := Collect(pages, batch, s.cursor, true, s.cursor, s.buffer[..take]);
        assert s.buffer[take..] + r.overflow == r.overflow;
        DistinctParts(r.taken, r.overflow);
      }
    }
  }

  lemma DistinctParts(s: seq<string>, t: seq<string>)
    requires Distinct(s + t)
    ensures Distinct(s) && Distinct(t)
  {
    forall i, j | 0 <= i < j < |t| ensures t[i] != t[j] {
      assert (s + t)[|s| + i] == t[i] && (s + t)[|s| + j] == t[j];
    }
    forall i, j | 0 <= i < j < |s| ensures s[i] != s[j] {
      assert (s + t)[i] == s[i] && (s + t)[j] == s[j];
    }
  }

  /** The scan after the first `n` of a sequence of calls. */
  function After(s: Scan, batch: int, calls: seq<seq<seq<string>>>, n: nat): Scan
    requires n <= |calls|
    decreases n
  {
    if n == 0 then s else Call(After(s, batch, calls, n - 1), batch, calls[n - 1]).scan
  }

  /** Over any calls from an empty buffer, the buffer never holds a repetition nor more than the largest
      page. */
  lemma {:induction false} BufferBound(s: Scan, batch: int, calls: seq<seq<seq<string>>>, n: nat, bound: nat)
    requires n <= |calls| && s.buffer == []
    requires forall k, c :: 0 <= k < |calls| && 0 <= c < |calls[k]| ==> |calls[k][c]| <= bound
    ensures Distinct(After(s, batch, calls, n).buffer) && |After(s, batch, calls, n).buffer| <= bound
    decreases n
  {
    if n > 0 {
      BufferBound(s, batch, calls, n - 1, bound);
      CallShape(After(s, batch, calls, n - 1), batch, calls[n - 1]);
    }
  }

  // --- Fairness.

  /** One scan plus one buffered id each, for the pages from `i` to before `j`. */
  function Weight(sizes: seq<nat>, i: nat, j: nat): nat
    requires j <= |sizes|
    decreases j - i
  {
    if i >= j then 0 else 1 + sizes[i] + Weight(sizes, i + 1, j)
  }

  /** What lies between the cursor and the page `home`, following the cursor round. */
  function Distance(sizes: seq<nat>, cursor: nat, home: nat): nat
    requires home < |sizes|
  {
    if cursor <= home then Weight(sizes, cursor, home + 1)
    else Weight(sizes, cursor, |sizes|) + Weight(sizes, 0, home + 1)
  }

  /** A bound on the calls until `id` of page `home` is returned. */
  function Wait(s: Scan, sizes: seq<nat>, id: string, home: nat): nat
    requires home < |sizes|
  {
    if id in s.buffer then |s.buffer| else |s.buffer| + Distance(sizes, s.cursor, home)
  }

  /** A call's SSCAN replies: no page larger than `sizes` says, and `id` on its home page. */
  ghost predicate Serves(pages: seq<seq<string>>, sizes: seq<nat>, id: string, home: nat) {
    && |pages| == |sizes| && home < |pages| && id in pages[home]
    && forall c :: 0 <= c < |pages| ==> |pages[c]| <= sizes[c]
  }

  lemma {:induction false} WeightSplit(sizes: seq<nat>, i: nat, k: nat, j: nat)
    requires i <= k <= j <= |sizes|
    ensures Weight(sizes, i, j) == Weight(sizes, i, k) + Weight(sizes, k, j)
    decreases k - i
  {
    if i < k {
      WeightSplit(sizes, i + 1, k, j);
    }
  }

  lemma DistanceBound(sizes: seq<nat>, cursor: nat, home: nat)
    requires home < |sizes|
    ensures 1 <= Distance(sizes, cursor, home) <= Weight(sizes, 0, |sizes|)
  {
    WeightSplit(sizes, 0, home + 1, |sizes|);
    WeightSplit(sizes, 0, home, home + 1);
    if cursor <= home {
      WeightSplit(sizes, 0, cursor, home + 1);
      WeightSplit(sizes, cursor, home, home + 1);
    } else if cursor < |sizes| {
      WeightSplit(sizes, 0, cursor, |sizes|);
      WeightSplit(sizes, 0, home + 1, cursor);
    }
  }

  lemma DistanceStep(pages: seq<seq<string>>, sizes: seq<nat>, cursor: nat, home: nat)
    requires |pages| == |sizes| && home < |sizes| && cursor < |sizes| && cursor != home
    ensures Distance(sizes, cursor, home) == 1 + sizes[cursor] + Distance(sizes, NextCursor(pages, cursor), home)
  {
    assert Weight(sizes, cursor, |sizes|) == 1 + sizes[cursor] + Weight(sizes, cursor + 1, |sizes|);
  }

  /** A scan either takes `id` or comes closer to its page than what it adds to the buffer. */
  lemma {:induction false} CollectProgress(
      pages: seq<seq<string>>, batch: nat, start: nat, first: bool, cursor: nat, taken: seq<string>,
      sizes: seq<nat>, id: string, home: nat)
    requires |taken| < batch && Distinct(taken) && cursor < |pages| && Serves(pages, sizes, id, home)
    ensures var r := Collect(pages, batch, start, first, cursor, taken);
      && r.cursor < |pages|
      && (id in r.taken
          || |r.overflow| + (if id in r.overflow then 0 else Distance(sizes, r.cursor, home)) < Distance(sizes, cursor, home))
    decreases |pages| - cursor
  {
    var page, next := pages[cursor], NextCursor(pages, cursor);
    var all := Extend(taken, page);
    var r := Collect(pages, batch, start, first, cursor, taken);
    ExtendGrows(taken, page);
    ExtendContains(taken, page, id);
    ExtendDistinct(taken, page);
    DistanceBound(sizes, home, home);
    if cursor != home {
      DistanceStep(pages, sizes, cursor, home);
    }
    if |all| >= batch || next == 0 || (!first && next == start) {
      assert all == r.taken + r.overflow;
      assert |r.overflow| <= |page| <= sizes[cursor];
    } else {
      CollectProgress(pages, batch, start, false, next, all, sizes, id, home);
      CollectShape(pages, batch, start, false, next, all);
      if cursor == home {
        assert id in r.taken[..|all|];
      }
    }
  }

  /** Each call returns `id` or comes closer to it. */
  lemma CallProgress(s: Scan, batch: int, pages: seq<seq<string>>, sizes: seq<nat>, id: string, home: nat)
    requires batch > 0 && Distinct(s.buffer) && s.cursor < |pages| && Serves(pages, sizes, id, home)
    ensures var r := Call(s, batch, pages);
      && r.scan.cursor < |pages|
      && (id in r.ids || Wait(r.scan, sizes, id, home) < Wait(s, sizes, id, home))
  {
    var take := Min(batch, |s.buffer|);
    assert s.buffer == s.buffer[..take] + s.buffer[take..];
    ExtendOfDistinct(s.buffer[..take]);
    if take < batch {
      CollectProgress(pages, batch, s.cursor, true, s.cursor, s.buffer[..take], sizes, id, home);
      CollectShape(pages, batch, s.cursor, true, s.cursor, s.buffer[..take]);
      var r := Collect(pages, batch, s.cursor, true, s.cursor, s.buffer[..take]);
      assert s.buffer[take..] + r.overflow == r.overflow;
      if id in s.buffer {
        assert id in r.taken[..take];
      }
    }
  }

  /** Call `k` returns `id`. */
  predicate Returns(s: Scan, batch: int, calls: seq<seq<seq<string>>>, k: nat, id: string)
    requires k < |calls|
  {
    id in Call(After(s, batch, calls, k), batch, calls[k]).ids
  }

  lemma {:induction false} WaitShrinks(s: Scan, batch: int, calls: seq<seq<seq<string>>>, n: nat, sizes: seq<nat>, id: string, home: nat)
    requires batch > 0 && Distinct(s.buffer) && s.cursor < |sizes| && home < |sizes| && n <= |calls|
    requires forall k :: 0 <= k < |calls| ==> Serves(calls[k], sizes, id, home)
    requires forall k :: 0 <= k < n ==> !Returns(s, batch, calls, k, id)
    ensures var t := After(s, batch, calls, n);
      && Distinct(t.buffer) && t.cursor < |sizes|
      && Wait(t, sizes, id, home) + n <= Wait(s, sizes, id, home)
    decreases n
  {
    if n > 0 {
      WaitShrinks(s, batch, calls, n - 1, sizes, id, home);
      var before := After(s, batch, calls, n - 1);
      CallShape(before, batch, calls[n - 1]);
      CallProgress(before, batch, calls[n - 1], sizes, id, home);
      assert !Returns(s, batch, calls, n - 1, id);
    }
  }

  /** No dirty member starves, whatever else is marked, completed or left unfinished between the calls:
      among any calls as many as the buffered ids, the pages and the members together, one returns it. */
  lemma FairScan(s: Scan, batch: int, calls: seq<seq<seq<string>>>, sizes: seq<nat>, id: string, home: nat)
    requires batch > 0 && Distinct(s.buffer) && s.cursor < |sizes| && home < |sizes|
    requires forall k :: 0 <= k < |calls| ==> Serves(calls[k], sizes, id, home)
    requires |calls| >= |s.buffer| + Weight(sizes, 0, |sizes|)
    ensures exists k :: 0 <= k < |calls| && Returns(s, batch, calls, k, id)
  {
    if forall k :: 0 <= k < |calls| ==> !Returns(s, batch, calls, k, id) {
      var n := |calls|;
      DistanceBound(sizes, s.cursor, home);
      DistanceBound(sizes, After(s, batch, calls, n).cursor, home);
      WaitShrinks(s, batch, calls, n, sizes, id, home);
      assert false;
    }
  }

  /** The store's side of one dirty queue: its set, its versions and the persisted scan. */
  class DirtyScanStore {
    var members: set<string>
    var versions: map<string, string>
    var buffer: seq<string>
    var rawCursor: Option<nat>

    constructor ()
      ensures members == {} && versions == map[] && State() == Scan([], 0)
    {
      members, versions, buffer, rawCursor := {}, map[], [], None;
    }

    /** A missing or unreadable cursor means the start. */
    ghost function State(): Scan
      reads this
    {
      Scan(buffer, if rawCursor.Some? then rawCursor.value else 0)
    }

    /** `pages` are the SSCAN replies of this call, and `marks` what other clients mark between the reading
        of the versions and the removal of orphans. A scanned member without a version is an orphan, removed
        unless it has been marked by then; no other member is removed. */
    method ListDirty(batchSize: int, pages: seq<seq<string>>, marks: map<string, string>) returns (result: seq<(string, string)>)
      modifies this
      ensures State() == Call(old(State()), batchSize, pages).scan
      ensures result == Versioned(Call(old(State()), batchSize, pages).ids, old(versions))
      ensures versions == if batchSize > 0 then old(versions) + marks else old(versions)
      ensures batchSize <= 0 ==> members == old(members)
      ensures batchSize > 0 ==>
        members == old(members) + marks.Keys
                   - set id | id in Call(old(State()), batchSize, pages).ids && id !in old(versions) && id !in marks
    {
      if batchSize <= 0 {
        return [];
      }
      var ids := ScanIds(batchSize, pages);
      var orphans;
      result, orphans := ReadVersions(ids);
      members, versions := members + marks.Keys, versions + marks;
      RemoveOrphans(orphans);
      assert members == old(members) + marks.Keys - set id | id in orphans && id !in versions;
    }

    /** Drain the buffer, then scan until the batch is full or the iteration has come round. */
    method ScanIds(batchSize: nat, pages: seq<seq<string>>) returns (ids: seq<string>)
      requires batchSize > 0
      modifies this`buffer, this`rawCursor
      ensures Outcome(ids, State()) == Call(old(State()), batchSize, pages)
    {
      var take := Min(batchSize, |buffer|);
      ids := Extend([], buffer[..take]);
      buffer := buffer[take..];
      var cursor: nat := if rawCursor.Some? then rawCursor.value else 0;
      var start, first := cursor, true;
      ghost var goal := Remaining(pages, batchSize, start, first, cursor, ids, buffer);
      while |ids| < batchSize
        invariant goal == Remaining(pages, batchSize, start, first, cursor, ids, buffer)
        decreases if |ids| < batchSize then 1 + |pages| - Min(cursor, |pages|) else 0
      {
        RemainingStep(pages, batchSize, start, first, cursor, ids, buffer);
        var overflow;
        ids, overflow := AddPage(ids, PageAt(pages, cursor), batchSize);
        buffer := buffer + overflow;
        cursor := NextCursor(pages, cursor);
        if cursor == 0 || (!first && cursor == start) {
          break;
        }
        first := false;
      }
      rawCursor := Some(cursor);
    }

    method ReadVersions(ids: seq<string>) returns (result: seq<(string, string)>, orphans: seq<string>)
      ensures result == Versioned(ids, versions)
      ensures forall id :: id in orphans <==> id in ids && id !in versions
    {
      result, orphans := [], [];
      for i := 0 to |ids|
        invariant result == Versioned(ids[..i], versions)
        invariant forall id :: id in orphans <==> id in ids[..i] && id !in versions
      {
        assert ids[..i + 1] == ids[..i] + [ids[i]];
        if ids[i] !in versions {
          orphans := orphans + [ids[i]];
        } else {
          result := result + [(ids[i], versions[ids[i]])];
        }
      }
      assert ids[..|ids|] == ids;
    }

    /** The script checks the version once more before it removes a member. */
    method RemoveOrphans(orphans: seq<string>)
      modifies this`members
      ensures members == old(members) - set id | id in orphans && id !in versions
    {
      for i := 0 to |orphans|
        invariant members == old(members) - set id | id in orphans[..i] && id !in versions
      {
        assert orphans[..i + 1] == orphans[..i] + [orphans[i]];
        if orphans[i] !in versions {
          members := members - {orphans[i]};
        }
      }
      assert orphans[..|orphans|] == orphans;
    }

    /** The loop over one page: new ids fill the batch, the rest overflow. */
    method AddPage(known: seq<string>, page: seq<string>, batchSize: nat) returns (ids: seq<string>, overflow: seq<string>)
      requires |known| < batchSize
      ensures var all := Extend(known, page);
        ids == all[..Min(batchSize, |all|)] && overflow == all[Min(batchSize, |all|)..]
    {
      ids, overflow := known, [];
      var seen := set id | id in known;
      for i := 0 to |page|
        invariant ids + overflow == Extend(known, page[..i])
        invariant |ids| <= batchSize && (overflow != [] ==> |ids| == batchSize)
        invariant seen == (set id | id in ids + overflow)
      {
        assert page[..i + 1][..i] == page[..i];
        if page[i] !in seen {
          seen := seen + {page[i]};
          if |ids| < batchSize {
            assert ids + [page[i]] + overflow == ids + overflow + [page[i]];
            ids := ids + [page[i]];
          } else {
            overflow := overflow + [page[i]];
          }
        }
      }
      assert page[..|page|] == page;
    }

    /** Without a version the account is removed unconditionally; with one only if nothing newer came. */
    method CompleteDirty(id: string, expectedVersion: Option<string>) returns (completed: bool)
      modifies this`members, this`versions
      ensures completed == if expectedVersion.None? then id in old(members) else id in old(versions) && old(versions)[id] == expectedVersion.value
      ensures members == if completed then old(members) - {id} else old(members)
      ensures versions == if completed && expectedVersion.Some? then old(versions) - {id} else old(versions)
      ensures expectedVersion.Some? ==>
        Q.Queue(members, versions) == Q.Next(Q.Queue(old(members), old(versions)), Q.Complete(id, expectedVersion.value))
    {
      if expectedVersion.None? {
        completed := id in members;
        members := members - {id};
        return;
      }
      completed := id in versions && versions[id] == expectedVersion.value;
      if completed {
        members := members - {id};
        versions := versions - {id};
      }
    }
  }
}

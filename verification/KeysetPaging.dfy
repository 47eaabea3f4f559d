/** Paging backwards through orders or trades by primary key: a page holds the largest matching ids below the
    cursor, and the last one delivered becomes the next cursor. New rows may appear above it between two
    pages. */
module KeysetPaging {
  import opened Options

  /** `ids` are the keys of the rows matching the filters, in no order. */
  function Below(ids: set<nat>, before: Option<nat>): set<nat> {
    set x | x in ids && (before.Some? ==> x < before.value)
  }

  function Largest(ids: set<nat>): (m: nat)
    requires ids != {}
    ensures m in ids && forall x :: x in ids ==> x <= m
  {
    LargestExists(ids);
    var m :| m in ids && forall x :: x in ids ==> x <= m;
    m
  }

  lemma {:induction false} LargestExists(ids: set<nat>)
    requires ids != {}
    ensures exists m :: m in ids && forall x :: x in ids ==> x <= m
  {
    var a :| a in ids;
    if ids - {a} == {} {
      assert forall x :: x in ids ==> x == a || x in ids - {a};
    } else {
      LargestExists(ids - {a});
      var b :| b in ids - {a} && forall x :: x in ids - {a} ==> x <= b;
      var m := if a > b then a else b;
      assert forall x :: x in ids ==> x == a || x in ids - {a};
      assert m in ids && forall x :: x in ids ==> x <= m;
    }
  }

  /** ORDER BY id DESC. */
  function Descending(ids: set<nat>): seq<nat> {
    if ids == {} then [] else [Largest(ids)] + Descending(ids - {Largest(ids)})
  }

  /** WHERE id < before ORDER BY id DESC LIMIT size. */
  function Fetch(ids: set<nat>, before: Option<nat>, size: nat): seq<nat> {
    var all := Descending(Below(ids, before));
    if |all| <= size then all else all[..size]
  }

  datatype Page = Page(items: seq<nat>, next: Option<nat>, hasMore: bool)

  /** One more row than asked for tells whether there is a next page. */
  function ListPage(ids: set<nat>, before: Option<nat>, limit: nat): Page {
    var rows := Fetch(ids, before, limit + 1);
    var hasMore := |rows| > limit;
    var items := if hasMore then rows[..limit] else rows;
    Page(items, if hasMore && items != [] then Some(items[|items| - 1]) else None, hasMore)
  }

  /** A client follows the cursor, one table state per request; the flag tells whether it reached the end. */
  function Follow(tables: seq<set<nat>>, before: Option<nat>, limit: nat): (seq<nat>, bool) {
    if tables == [] then ([], false) else
      var page := ListPage(tables[0], before, limit);
      if page.next.None? then (page.items, !page.hasMore) else
        var rest := Follow(tables[1..], page.next, limit);
        (page.items + rest.0, rest.1)
  }

  lemma FetchBound(ids: set<nat>, before: Option<nat>, size: nat)
    ensures |Fetch(ids, before, size)| <= size && Fetch(ids, before, size) <= Descending(Below(ids, before))
  {}

  /** The client knows that it has everything exactly if some request it made said there was no more. */
  lemma FollowEndsIff(tables: seq<set<nat>>, before: Option<nat>, limit: nat)
    ensures Follow(tables, before, limit).1 <==>
      tables != [] &&
        var page := ListPage(tables[0], before, limit);
        if page.next.Some? then Follow(tables[1..], page.next, limit).1 else !page.hasMore
  {}

  // --- The order of rows.

  lemma {:induction false} DescendingIsExact(ids: set<nat>)
    ensures var s := Descending(ids);
      && |s| == |ids| && (forall x :: x in s <==> x in ids)
      && (forall i, j :: 0 <= i < j < |s| ==> s[i] > s[j])
  {
    if ids != {} {
      var m := Largest(ids);
      DescendingIsExact(ids - {m});
      LargestFirst(ids, m, Descending(ids - {m}));
    }
  }

  lemma LargestFirst(ids: set<nat>, m: nat, rest: seq<nat>)
    requires m in ids && (forall x :: x in ids ==> x <= m)
    requires |rest| == |ids - {m}| && (forall x :: x in rest <==> x in ids - {m})
    requires forall i, j :: 0 <= i < j < |rest| ==> rest[i] > rest[j]
    ensures var s := [m] + rest;
      && |s| == |ids| && (forall x :: x in s <==> x in ids)
      && (forall i, j :: 0 <= i < j < |s| ==> s[i] > s[j])
  {
    var s := [m] + rest;
    assert ids == {m} + (ids - {m});
    forall x ensures x in s <==> x in ids {
      assert x in s <==> x == m || x in rest;
    }
    forall j | 1 <= j < |s| ensures m > s[j] {
      assert s[j] in rest;
    }
  }

  /** What is below the row at position `k` are the rows after it. */
  lemma {:induction false} BelowIsSuffix(ids: set<nat>, k: nat)
    requires k < |Descending(ids)|
    ensures Descending(Below(ids, Some(Descending(ids)[k]))) == Descending(ids)[k + 1..]
  {
    var m := Largest(ids);
    var rest := ids - {m};
    var tail := Descending(rest);
    AfterFirst(Descending(ids), m, tail, k);
    if k == 0 {
      BelowLargest(ids, m);
    } else {
      DescendingIsExact(rest);
      assert tail[k - 1] in rest;
      BelowWithout(ids, m, tail[k - 1]);
      BelowIsSuffix(rest, k - 1);
    }
  }

  lemma AfterFirst(all: seq<nat>, m: nat, tail: seq<nat>, k: nat)
    ensures all == [m] + tail && k < |all| ==> all[k] == (if k == 0 then m else tail[k - 1]) && all[k + 1..] == tail[k..]
  {}

  lemma BelowLargest(ids: set<nat>, m: nat)
    ensures (m in ids && forall x :: x in ids ==> x <= m) ==> Below(ids, Some(m)) == ids - {m}
  {}

  lemma BelowWithout(ids: set<nat>, m: nat, x: nat)
    ensures x <= m ==> Below(ids, Some(x)) == Below(ids - {m}, Some(x))
  {}

  lemma PageIsPrefix(ids: set<nat>, before: Option<nat>, limit: nat)
    requires limit >= 1
    ensures var all, page := Descending(Below(ids, before)), ListPage(ids, before, limit);
      && page.hasMore == (|all| > limit) && page.next.Some? == page.hasMore
      && page.items == (if page.hasMore then all[..limit] else all)
      && (page.hasMore ==> page.next == Some(all[limit - 1]))
  {
    var all := Descending(Below(ids, before));
    if |all| > limit + 1 {
      assert all[..limit + 1][..limit] == all[..limit];
    }
  }

  /** Below the start every request finds the same rows; larger ones may have been added meanwhile. */
  ghost predicate StableBelow(tables: seq<set<nat>>, start: nat) {
    forall i :: 0 <= i < |tables| ==> Below(tables[i], Some(start)) == Below(tables[0], Some(start))
  }

  /** Following the cursor ends, after at most as many requests as there are rows and one more, and yields
      every row below the start once, in descending order, whatever larger rows are inserted meanwhile. */
  lemma {:induction false} PagingIsComplete(tables: seq<set<nat>>, start: nat, limit: nat)
    requires limit >= 1 && tables != [] && StableBelow(tables, start)
    requires |tables| > |Descending(Below(tables[0], Some(start)))|
    ensures Follow(tables, Some(start), limit) == (Descending(Below(tables[0], Some(start))), true)
    decreases |tables|
  {
    var all, page := Descending(Below(tables[0], Some(start))), ListPage(tables[0], Some(start), limit);
    PageIsPrefix(tables[0], Some(start), limit);
    if page.hasMore {
      var next := all[limit - 1];
      NextTables(tables, start, limit, next);
      PagingIsComplete(tables[1..], next, limit);
      assert all[..limit] + all[limit..] == all;
    }
  }

  lemma NextTables(tables: seq<set<nat>>, start: nat, limit: nat, next: nat)
    requires |tables| > 1 && StableBelow(tables, start)
    requires 1 <= limit < |Descending(Below(tables[0], Some(start)))| && next == Descending(Below(tables[0], Some(start)))[limit - 1]
    ensures StableBelow(tables[1..], next)
    ensures Descending(Below(tables[1..][0], Some(next))) == Descending(Below(tables[0], Some(start)))[limit..]
  {
    var rows := Below(tables[0], Some(start));
    DescendingIsExact(rows);
    assert next in rows;
    BelowIsSuffix(rows, limit - 1);
    forall i | 0 <= i < |tables| ensures Below(tables[i], Some(next)) == Below(rows, Some(next)) {
    }
  }

  /** The first request has no cursor: it starts above everything the table holds at that time. */
  lemma FirstPageStartsAbove(tables: seq<set<nat>>, start: nat, limit: nat)
    requires limit >= 1 && StableBelow(tables, start) && tables != [] && forall x :: x in tables[0] ==> x < start
    requires |tables| > |Descending(tables[0])|
    ensures Follow(tables, None, limit) == (Descending(tables[0]), true)
  {
    AllBelow(tables[0], start);
    PagingIsComplete(tables, start, limit);
  }

  lemma AllBelow(ids: set<nat>, start: nat)
    ensures (forall x :: x in ids ==> x < start) ==> Below(ids, None) == ids && Below(ids, Some(start)) == ids
  {}

  /** A limit of zero, which both APIs refuse beforehand, would say there is more and give no way to it. */
  lemma ZeroLimitStrands(ids: set<nat>, before: Option<nat>)
    requires Below(ids, before) != {}
    ensures ListPage(ids, before, 0) == Page([], None, true)
  {
    DescendingIsExact(Below(ids, before));
  }
}

/** The position indexes of the realtime PnL store: one set of position ids per account and one per
    contract, the index of their keys, and the rebuild from PostgreSQL. */
module PnlIndex {
  import opened Options
  import opened PercentCodec
  import T = SetTables

  /** The keys `pnl:account_positions:<account>` and `pnl:contract_positions:<code>`. */
  datatype Key = AccountPositions(account: Text) | ContractPositions(code: Text)

  /** An active or closed position as callers name it. */
  datatype Entry = Entry(account: Text, exchange: Text, orderBook: Text, position: string)

  /** `listed` joins the two indexes of keys, which hold keys of different kinds. */
  datatype Index = Index(sets: map<Key, set<string>>, listed: set<Key>)

  function ContractCode(exchange: Text, orderBook: Text): Text {
    Normal(exchange) + [':'] + Normal(orderBook)
  }

  function ContractKey(e: Entry): Key {
    ContractPositions(ContractCode(e.exchange, e.orderBook))
  }

  function Keys(e: Entry): set<Key> {
    {AccountPositions(e.account), ContractKey(e)}
  }

  function Members(i: Index, k: Key): set<string> {
    T.Members(i.sets, k)
  }

  function Sadd(i: Index, k: Key, position: string): Index {
    i.(sets := T.Put(i.sets, k, position))
  }

  function Srem(i: Index, k: Key, position: string): Index {
    i.(sets := T.Drop(i.sets, k, position))
  }

  function List(i: Index, k: Key): Index {
    i.(listed := i.listed + {k})
  }

  function SremAndPrune(i: Index, k: Key, position: string): Index {
    var r := Srem(i, k, position);
    if Members(r, k) == {} then r.(listed := r.listed - {k}) else r
  }

  /** The four commands that add a position, in order. */
  function AddEntry(i: Index, e: Entry): Index {
    List(List(Sadd(Sadd(i, AccountPositions(e.account), e.position), ContractKey(e), e.position),
              AccountPositions(e.account)), ContractKey(e))
  }

  /** The two commands of a cycle that close a position. */
  function RemoveEntry(i: Index, e: Entry): Index {
    SremAndPrune(SremAndPrune(i, AccountPositions(e.account), e.position), ContractKey(e), e.position)
  }

  /** The single removal, which leaves the keys listed. */
  function RemovePosition(i: Index, e: Entry): Index {
    Srem(Srem(i, ContractKey(e), e.position), AccountPositions(e.account), e.position)
  }

  function AddEntries(i: Index, entries: seq<Entry>): Index {
    if entries == [] then i else AddEntry(AddEntries(i, entries[..|entries| - 1]), entries[|entries| - 1])
  }

  function RemoveEntries(i: Index, entries: seq<Entry>): Index {
    if entries == [] then i else RemoveEntry(RemoveEntries(i, entries[..|entries| - 1]), entries[|entries| - 1])
  }

  /** Delete the sets found stale, empty the index of keys, add the given positions. */
  function Rebuilt(i: Index, stale: set<Key>, entries: seq<Entry>): Index {
    AddEntries(Index(i.sets - stale, {}), entries)
  }

  // --- Projections of one plain relation.

  /** A position id fixes its account and contract. */
  predicate Conforms(home: map<string, Entry>, e: Entry) {
    e.position in home && Keys(home[e.position]) == Keys(e)
  }

  ghost predicate AllConform(home: map<string, Entry>, entries: seq<Entry>) {
    forall e :: e in entries ==> Conforms(home, e)
  }

  function Positions(entries: seq<Entry>): set<string> {
    set e | e in entries :: e.position
  }

  function Projection(home: map<string, Entry>, active: set<string>, k: Key): set<string> {
    set p | p in active && p in home && k in Keys(home[p])
  }

  /** Every position set is the projection of the active positions. */
  ghost predicate Projects(i: Index, home: map<string, Entry>, active: set<string>) {
    forall k: Key :: Members(i, k) == Projection(home, active, k)
  }

  /** No set is empty and every set's key is listed. */
  ghost predicate Listed(i: Index) {
    forall k :: k in i.sets ==> i.sets[k] != {} && k in i.listed
  }

  lemma AddKeepsProjects(i: Index, home: map<string, Entry>, active: set<string>, e: Entry)
    requires Projects(i, home, active) && Conforms(home, e)
    ensures Projects(AddEntry(i, e), home, active + {e.position})
  {
    forall k: Key ensures Members(AddEntry(i, e), k) == Projection(home, active + {e.position}, k) {
      AddMembers(i, e, k);
      assert Members(i, k) == Projection(home, active, k);
    }
  }

  lemma AddMembers(i: Index, e: Entry, k: Key)
    ensures Members(AddEntry(i, e), k) == if k in Keys(e) then Members(i, k) + {e.position} else Members(i, k)
  {}

  lemma AddKeepsListed(i: Index, e: Entry)
    ensures (forall k :: k in i.sets ==> i.sets[k] != {} && k in i.listed) ==> Listed(AddEntry(i, e))
  {}

  lemma SremMembers(i: Index, k: Key, position: string, other: Key)
    ensures Members(Srem(i, k, position), other) == if other == k then Members(i, k) - {position} else Members(i, other)
    ensures Members(SremAndPrune(i, k, position), other) == Members(Srem(i, k, position), other)
  {}

  /** A cycle that takes the last position out of a set takes its key off the list as well. */
  lemma PrunedIff(i: Index, k: Key, position: string, other: Key)
    ensures var r := SremAndPrune(i, k, position);
      other in r.listed <==> other in i.listed && (other != k || Members(i, k) - {position} != {})
  {
    SremMembers(i, k, position, k);
  }

  lemma SremKeepsListed(i: Index, k: Key, position: string)
    requires Listed(i)
    ensures Listed(Srem(i, k, position)) && Listed(SremAndPrune(i, k, position))
  {}

  lemma RemoveMembers(i: Index, e: Entry, k: Key)
    ensures Members(RemoveEntry(i, e), k) == if k in Keys(e) then Members(i, k) - {e.position} else Members(i, k)
    ensures Members(RemovePosition(i, e), k) == Members(RemoveEntry(i, e), k)
  {
    var a, c := AccountPositions(e.account), ContractKey(e);
    SremMembers(i, a, e.position, k);
    SremMembers(SremAndPrune(i, a, e.position), c, e.position, k);
    SremMembers(i, c, e.position, k);
    SremMembers(Srem(i, c, e.position), a, e.position, k);
  }

  /** Both ways of removing a position keep every set a projection and every key listed. */
  lemma RemoveKeepsProjects(i: Index, home: map<string, Entry>, active: set<string>, e: Entry)
    requires Projects(i, home, active) && Listed(i) && Conforms(home, e)
    ensures Projects(RemoveEntry(i, e), home, active - {e.position}) && Listed(RemoveEntry(i, e))
    ensures Projects(RemovePosition(i, e), home, active - {e.position}) && Listed(RemovePosition(i, e))
  {
    forall k: Key
      ensures Members(RemoveEntry(i, e), k) == Projection(home, active - {e.position}, k)
      ensures Members(RemovePosition(i, e), k) == Projection(home, active - {e.position}, k)
    {
      RemoveMembers(i, e, k);
      assert Members(i, k) == Projection(home, active, k);
    }
    var a, c := AccountPositions(e.account), ContractKey(e);
    SremKeepsListed(i, a, e.position);
    SremKeepsListed(SremAndPrune(i, a, e.position), c, e.position);
    SremKeepsListed(i, c, e.position);
    SremKeepsListed(Srem(i, c, e.position), a, e.position);
  }

  lemma {:induction false} AddEntriesKeep(i: Index, home: map<string, Entry>, active: set<string>, entries: seq<Entry>)
    requires Projects(i, home, active) && Listed(i) && AllConform(home, entries)
    ensures Projects(AddEntries(i, entries), home, active + Positions(entries)) && Listed(AddEntries(i, entries))
  {
    if entries == [] {
      assert active + Positions(entries) == active;
    } else {
      var front, e := entries[..|entries| - 1], entries[|entries| - 1];
      assert entries == front + [e];
      AddEntriesKeep(i, home, active, front);
      AddKeepsProjects(AddEntries(i, front), home, active + Positions(front), e);
      AddKeepsListed(AddEntries(i, front), e);
      assert active + Positions(front) + {e.position} == active + Positions(entries);
    }
  }

  lemma {:induction false} RemoveEntriesKeep(i: Index, home: map<string, Entry>, active: set<string>, entries: seq<Entry>)
    requires Projects(i, home, active) && Listed(i) && AllConform(home, entries)
    ensures Projects(RemoveEntries(i, entries), home, active - Positions(entries)) && Listed(RemoveEntries(i, entries))
  {
    if entries == [] {
      assert active - Positions(entries) == active;
    } else {
      var front, e := entries[..|entries| - 1], entries[|entries| - 1];
      assert entries == front + [e];
      RemoveEntriesKeep(i, home, active, front);
      assert Positions(entries) == Positions(front) + {e.position};
      RemoveKeepsProjects(RemoveEntries(i, front), home, active - Positions(front), e);
    }
  }

  // --- The rebuild.

  /** What one entry adds to a set. */
  function Share(e: Entry, k: Key): set<string> {
    if k in Keys(e) then {e.position} else {}
  }

  lemma {:induction false} AddEntriesMembers(i: Index, home: map<string, Entry>, entries: seq<Entry>, k: Key)
    requires AllConform(home, entries)
    ensures Members(AddEntries(i, entries), k) == Members(i, k) + Projection(home, Positions(entries), k)
  {
    if entries != [] {
      var front, e := entries[..|entries| - 1], entries[|entries| - 1];
      assert entries == front + [e];
      AddEntriesMembers(i, home, front, k);
      AddShare(AddEntries(i, front), e, k);
      ProjectionShare(home, front, e, k);
      UnionAssociates(Members(i, k), Projection(home, Positions(front), k), Share(e, k));
    }
  }

  lemma AddShare(i: Index, e: Entry, k: Key)
    ensures Members(AddEntry(i, e), k) == Members(i, k) + Share(e, k)
  {
    AddMembers(i, e, k);
  }

  lemma ProjectionShare(home: map<string, Entry>, front: seq<Entry>, e: Entry, k: Key)
    requires Conforms(home, e)
    ensures Projection(home, Positions(front + [e]), k) == Projection(home, Positions(front), k) + Share(e, k)
  {
    assert Positions(front + [e]) == Positions(front) + {e.position};
    assert k in Keys(home[e.position]) <==> k in Keys(e);
  }

  lemma UnionAssociates(a: set<string>, b: set<string>, c: set<string>)
    ensures a + b + c == a + (b + c)
  {}

  lemma RebuiltMembers(i: Index, stale: set<Key>, home: map<string, Entry>, entries: seq<Entry>, k: Key)
    requires AllConform(home, entries)
    ensures Members(Rebuilt(i, stale, entries), k)
         == (if k in stale then {} else Members(i, k)) + Projection(home, Positions(entries), k)
  {
    AddEntriesMembers(Index(i.sets - stale, {}), home, entries, k);
  }

  /** Whatever the sets held before, a rebuild leaves exactly the given positions precisely when no set
      outside the stale keys held another one. */
  lemma RebuildExactIff(i: Index, stale: set<Key>, home: map<string, Entry>, entries: seq<Entry>)
    requires AllConform(home, entries)
    ensures Projects(Rebuilt(i, stale, entries), home, Positions(entries))
       <==> forall k: Key :: k !in stale ==> Members(i, k) <= Projection(home, Positions(entries), k)
  {
    forall k: Key
      ensures Members(Rebuilt(i, stale, entries), k) == Projection(home, Positions(entries), k)
         <==> (k !in stale ==> Members(i, k) <= Projection(home, Positions(entries), k))
    {
      RebuiltMembers(i, stale, home, entries, k);
    }
  }

  lemma {:induction false} AddEntriesListed(i: Index, entries: seq<Entry>)
    requires Listed(i)
    ensures Listed(AddEntries(i, entries))
  {
    if entries != [] {
      AddEntriesListed(i, entries[..|entries| - 1]);
      AddKeepsListed(AddEntries(i, entries[..|entries| - 1]), entries[|entries| - 1]);
    }
  }

  /** Read and replaced in one piece, every rebuild is exact, because every set was listed. */
  lemma RebuildRestores(i: Index, home: map<string, Entry>, entries: seq<Entry>)
    requires Listed(i) && AllConform(home, entries)
    ensures var r := Rebuilt(i, i.listed, entries);
      Projects(r, home, Positions(entries)) && Listed(r)
  {
    RebuildExactIff(i, i.listed, home, entries);
    AddEntriesListed(Index(i.sets - i.listed, {}), entries);
  }

  /** A position added between reading the stale keys and replacing them, under a key not yet listed,
      survives unlisted, and whatever later rebuilds are given they leave it there. */
  lemma RebuildRaceLeaks(i: Index, e: Entry, home: map<string, Entry>, later: seq<Entry>)
    requires AccountPositions(e.account) !in i.listed && AllConform(home, later)
    ensures var k, raced := AccountPositions(e.account), Rebuilt(AddEntry(i, e), i.listed, []);
      k !in raced.listed && e.position in Members(Rebuilt(raced, raced.listed, later), k)
  {
    var k, raced := AccountPositions(e.account), Rebuilt(AddEntry(i, e), i.listed, []);
    AddMembers(i, e, k);
    assert e.position in Members(raced, k);
    RebuiltMembers(raced, raced.listed, home, later, k);
  }

  // --- Reading the active codes back from the keys.

  /** The code read from a contract key: what follows the first separator, normalised again. */
  function CodeOf(code: Text): Option<Text> {
    var p := Partition(code, ':');
    if p.None? || Normal(p.value.rest) == [] then None else Some(Normal(p.value.rest))
  }

  /** The loop over the listed contract keys whose sets are not empty. */
  function ActiveCodes(i: Index): set<Text> {
    set k | k in i.listed && k.ContractPositions? && Members(i, k) != {} && CodeOf(k.code).Some? :: CodeOf(k.code).value
  }

  /** The codes come from active positions only, and every active position gives its key's code. */
  lemma ActiveCodesIff(i: Index, home: map<string, Entry>, active: set<string>, code: Text)
    requires Projects(i, home, active) && Listed(i) && active <= home.Keys
    ensures code in ActiveCodes(i) <==> exists p :: p in active && CodeOf(ContractKey(home[p]).code) == Some(code)
  {
    if code in ActiveCodes(i) {
      var k :| k in i.listed && k.ContractPositions? && Members(i, k) != {} && CodeOf(k.code) == Some(code);
      var p :| p in Members(i, k);
      assert p in Projection(home, active, k);
      assert k == ContractKey(home[p]);
    }
    if p :| p in active && CodeOf(ContractKey(home[p]).code) == Some(code) {
      ActivePositionListed(i, home, active, p);
    }
  }

  lemma ActivePositionListed(i: Index, home: map<string, Entry>, active: set<string>, p: string)
    requires Projects(i, home, active) && Listed(i) && p in active && p in home
    ensures ContractKey(home[p]) in i.listed && Members(i, ContractKey(home[p])) != {}
  {
    assert p in Projection(home, active, ContractKey(home[p]));
    assert p in Members(i, ContractKey(home[p]));
  }

  /** A key gives back its own order book code exactly when the exchange has no separator in it and the
      order book is not blank. */
  lemma CodeOfIff(exchange: Text, orderBook: Text)
    ensures CodeOf(ContractCode(exchange, orderBook)) == Some(Normal(orderBook))
       <==> ':' !in exchange && Normal(orderBook) != []
  {
    var ex, ob := Normal(exchange), Normal(orderBook);
    NormalKeepsColon(exchange);
    NormalIdempotent(orderBook);
    StripStrips(ob);
    if ':' !in ex {
      PartitionJoined(ex, ':', ob);
    } else {
      var j := FirstOf(ex, ':');
      assert ex == ex[..j] + [':'] + ex[j + 1..];
      var rest := ex[j + 1..] + ([':'] + ob);
      assert ContractCode(exchange, orderBook) == ex[..j] + [':'] + rest;
      PartitionJoined(ex[..j], ':', rest);
      NormalLength(ex[j + 1..], ob);
    }
  }

  function FirstOf(s: Text, c: Octet): (j: nat)
    requires c in s
    ensures j < |s| && s[j] == c && c !in s[..j]
  {
    if s[0] == c then 0 else 1 + FirstOf(s[1..], c)
  }

  lemma {:induction false} LeftStripKeepsTail(s: Text, t: Text)
    requires t != [] && !Blank(t[0])
    ensures |LeftStrip(s + t)| >= |t| && LeftStrip(s + t)[|LeftStrip(s + t)| - |t|..] == t
  {
    if s == [] {
      assert s + t == t;
    } else if Blank(s[0]) {
      assert (s + t)[1..] == s[1..] + t;
      LeftStripKeepsTail(s[1..], t);
    } else {
      assert (s + t)[|s|..] == t;
    }
  }

  /** A separator in front of a stripped text survives stripping, so the result is longer than the text. */
  lemma NormalLength(s: Text, ob: Text)
    requires Stripped(ob)
    ensures Normal(s + ([':'] + ob)) != ob
  {
    var t: Text := [':'] + ob;
    LeftStripKeepsTail(s, t);
    var l := LeftStrip(s + t);
    assert l[|l| - 1] == t[|t| - 1];
    assert !Blank(l[|l| - 1]);
    assert |Normal(s + t)| == |l| > |ob|;
  }

  lemma {:induction false} LeftStripColon(s: Text)
    ensures ':' in LeftStrip(s) <==> ':' in s
  {
    if s != [] && Blank(s[0]) {
      LeftStripColon(s[1..]);
    }
  }

  lemma {:induction false} RightStripColon(s: Text)
    ensures ':' in RightStrip(s) <==> ':' in s
  {
    if s != [] && Blank(s[|s| - 1]) {
      assert s == s[..|s| - 1] + [s[|s| - 1]];
      RightStripColon(s[..|s| - 1]);
    }
  }

  lemma NormalKeepsColon(s: Text)
    ensures ':' in Normal(s) <==> ':' in s
  {
    LeftStripColon(s);
    RightStripColon(LeftStrip(s));
    var t := Strip(s);
    if ':' in t {
      var i :| 0 <= i < |t| && t[i] == ':';
      assert Upper(t)[i] == ':';
    }
    if ':' in Upper(t) {
      var i :| 0 <= i < |t| && Upper(t)[i] == ':';
      assert t[i] == ':';
    }
  }
}

/** Temporary market subscriptions: one sorted set of `account|code` members scored by expiry, with a limit
    per account that is counted by member prefix. */
module PreSubscription {
  import opened Options
  import opened PercentCodec

  /** Members and the times they expire, in microseconds. */
  type Rows = map<Text, int>

  function Prefix(account: Text): Text {
    Quote(Strip(account)) + ['|']
  }

  function Member(account: Text, code: Text): Text {
    Prefix(account) + Quote(Normal(code))
  }

  /** None is the source's ValueError. */
  function ParseMember(member: Text): Option<Pair> {
    var p := Partition(member, '|');
    if p.None? then None else Some(Pair(Unquote(p.value.first), Unquote(p.value.rest)))
  }

  lemma MemberRoundTrip(account: Text, code: Text)
    ensures ParseMember(Member(account, code)) == Some(Pair(Strip(account), Normal(code)))
  {
    QuoteIsSafe(Strip(account));
    PartitionJoined(Quote(Strip(account)), '|', Quote(Normal(code)));
    UnquoteQuote(Strip(account));
    UnquoteQuote(Normal(code));
  }

  /** Counting by prefix counts one account: a member starts with an account's prefix exactly when it is
      that account's, because encoded parts never contain the separator. */
  lemma PrefixExact(account: Text, owner: Text, code: Text)
    ensures Prefix(account) <= Member(owner, code) <==> Strip(account) == Strip(owner)
  {
    if Prefix(account) <= Member(owner, code) {
      var rest := Member(owner, code)[|Prefix(account)|..];
      assert Member(owner, code) == Quote(Strip(account)) + ['|'] + rest;
      QuoteIsSafe(Strip(account));
      QuoteIsSafe(Strip(owner));
      JoinInjective(Quote(Strip(account)), rest, Quote(Strip(owner)), Quote(Normal(code)), '|');
      UnquoteQuote(Strip(account));
      UnquoteQuote(Strip(owner));
    }
  }

  /** Dropping everything that has expired, which every script does first. */
  function Live(z: Rows, now: int): Rows {
    map m | m in z && z[m] > now :: z[m]
  }

  function Starting(z: Rows, prefix: Text): set<Text> {
    set m | m in z && prefix <= m
  }

  /** The members a request counts for an account. */
  function Owned(z: Rows, account: Text): set<Text> {
    Starting(z, Prefix(account))
  }

  function Added(z: Rows, members: set<Text>, expiry: int): Rows {
    z + map m | m in members :: expiry
  }

  function Requested(account: Text, codes: seq<Text>): set<Text> {
    set c | c in NormalCodes(codes) :: Member(account, c)
  }

  predicate Fits(z: Rows, account: Text, codes: seq<Text>, now: int, limit: nat) {
    |Owned(Live(z, now), account)| + |Requested(account, codes) - Live(z, now).Keys| <= limit
  }

  /** What a request that fits leaves. */
  function Granted(z: Rows, account: Text, codes: seq<Text>, now: int, ttl: nat): Rows {
    Added(Live(z, now), Requested(account, codes), now + ttl)
  }

  /** A refused request still drops what has expired. */
  function Request(z: Rows, account: Text, codes: seq<Text>, now: int, ttl: nat, limit: nat): Rows {
    if NormalCodes(codes) == {} then z
    else if Fits(z, account, codes, now, limit) then Granted(z, account, codes, now, ttl)
    else Live(z, now)
  }

  datatype Step =
    | Ask(account: Text, codes: seq<Text>, now: int)
    | Read(now: int)

  function Next(z: Rows, step: Step, ttl: nat, limit: nat): Rows {
    match step
    case Ask(account, codes, now) => Request(z, account, codes, now, ttl, limit)
    case Read(now) => Live(z, now)
  }

  function Run(steps: seq<Step>, ttl: nat, limit: nat): Rows {
    if steps == [] then map[] else Next(Run(steps[..|steps| - 1], ttl, limit), steps[|steps| - 1], ttl, limit)
  }

  /** A member that decodes to the parts it was made of. */
  predicate IsMember(m: Text) {
    var p := ParseMember(m);
    p.Some? && m == Member(p.value.first, p.value.rest)
  }

  lemma MembersAreMembers(account: Text, code: Text)
    ensures IsMember(Member(account, code))
  {
    MemberRoundTrip(account, code);
    StripStrips(account);
    StripStrips(Strip(account));
    NormalIdempotent(code);
  }

  /** Every row was made for some account and code. */
  ghost predicate Encoded(z: Rows) {
    forall m :: m in z ==> IsMember(m)
  }

  // --- The quota.

  lemma AddedStarting(z: Rows, members: set<Text>, expiry: int, prefix: Text)
    ensures Starting(Added(z, members, expiry), prefix) == Starting(z, prefix) + set m | m in members && prefix <= m
  {}

  lemma RequestedStarting(account: Text, codes: seq<Text>, prefix: Text)
    ensures prefix == Prefix(account) ==> (set m | m in Requested(account, codes) && prefix <= m) == Requested(account, codes)
  {}

  /** What an account holds after a request that fits: what was live and what is new, no more than its limit. */
  lemma OwnedAfterRequest(z: Rows, account: Text, codes: seq<Text>, now: int, ttl: nat, limit: nat)
    ensures NormalCodes(codes) != {} && Fits(z, account, codes, now, limit) ==>
      var t := Request(z, account, codes, now, ttl, limit);
      Owned(t, account) == Owned(Live(z, now), account) + Requested(account, codes) && |Owned(t, account)| <= limit
  {
    var live, wanted, prefix := Live(z, now), Requested(account, codes), Prefix(account);
    AddedStarting(live, wanted, now + ttl, prefix);
    RequestedStarting(account, codes, prefix);
    NewOwned(live, wanted, prefix);
    SizeOfUnion(Starting(live, prefix), wanted - live.Keys);
  }

  /** The two counts of the script add up to what the account would hold. */
  lemma FitsIff(z: Rows, account: Text, codes: seq<Text>, now: int, limit: nat)
    ensures Fits(z, account, codes, now, limit) <==> |Owned(Live(z, now), account) + Requested(account, codes)| <= limit
  {
    var live, wanted, prefix := Live(z, now), Requested(account, codes), Prefix(account);
    RequestedStarting(account, codes, prefix);
    NewOwned(live, wanted, prefix);
    assert |Starting(live, prefix) + (wanted - live.Keys)| == |Starting(live, prefix)| + |wanted - live.Keys|;
  }

  lemma NewOwned(live: Rows, wanted: set<Text>, prefix: Text)
    requires forall m :: m in wanted ==> m in (set m | m in wanted && prefix <= m)
    ensures Starting(live, prefix) + wanted == Starting(live, prefix) + (wanted - live.Keys)
  {}

  lemma SizeOfUnion(a: set<Text>, b: set<Text>)
    ensures |a + b| <= |a| + |b|
  {
    assert a + b == a + (b - a);
    SubsetSize(b - a, b);
  }

  lemma SubsetSize(a: set<Text>, b: set<Text>)
    requires a <= b
    ensures |a| <= |b|
  {
    assert b == a + (b - a);
  }

  /** A request touches another account only by dropping what has expired of it. */
  lemma OthersKeepUnexpired(z: Rows, account: Text, other: Text, codes: seq<Text>, now: int, ttl: nat, limit: nat)
    requires NormalCodes(codes) != {} && Strip(account) != Strip(other)
    ensures Owned(Request(z, account, codes, now, ttl, limit), other) == Owned(Live(z, now), other)
    ensures forall m :: m in Owned(Live(z, now), other) ==> Request(z, account, codes, now, ttl, limit)[m] == z[m]
  {
    GrantKeepsOthers(z, account, other, codes, now, ttl);
  }

  lemma GrantKeepsOthers(z: Rows, account: Text, other: Text, codes: seq<Text>, now: int, ttl: nat)
    requires Strip(account) != Strip(other)
    ensures Owned(Granted(z, account, codes, now, ttl), other) == Owned(Live(z, now), other)
    ensures forall m :: m in Owned(Live(z, now), other) ==> Granted(z, account, codes, now, ttl)[m] == Live(z, now)[m]
  {
    var live, wanted, prefix := Live(z, now), Requested(account, codes), Prefix(other);
    forall m | m in wanted ensures !(prefix <= m) {
      var c :| c in NormalCodes(codes) && m == Member(account, c);
      PrefixExact(other, account, c);
    }
    AddedStarting(live, wanted, now + ttl, prefix);
  }

  lemma StepKeepsQuota(z: Rows, step: Step, ttl: nat, limit: nat, account: Text)
    requires |Owned(z, account)| <= limit
    ensures |Owned(Next(z, step, ttl, limit), account)| <= limit
  {
    var t := Next(z, step, ttl, limit);
    var live := Owned(Live(z, step.now), account);
    SubsetSize(live, Owned(z, account));
    if step.Ask? && NormalCodes(step.codes) != {} {
      if Strip(step.account) != Strip(account) {
        OthersKeepUnexpired(z, step.account, account, step.codes, step.now, ttl, limit);
      } else if Fits(z, step.account, step.codes, step.now, limit) {
        OwnedAfterRequest(z, step.account, step.codes, step.now, ttl, limit);
        assert Prefix(step.account) == Prefix(account);
      }
    }
  }

  /** No run of requests and reads, at any times, takes an account past its limit. */
  lemma {:induction false} QuotaHolds(steps: seq<Step>, ttl: nat, limit: nat, account: Text)
    ensures |Owned(Run(steps, ttl, limit), account)| <= limit
  {
    if steps != [] {
      QuotaHolds(steps[..|steps| - 1], ttl, limit, account);
      StepKeepsQuota(Run(steps[..|steps| - 1], ttl, limit), steps[|steps| - 1], ttl, limit, account);
    } else {
      assert Owned(Run(steps, ttl, limit), account) == {};
    }
  }

  lemma GrantEncoded(z: Rows, account: Text, codes: seq<Text>, now: int, ttl: nat)
    requires Encoded(z)
    ensures Encoded(Granted(z, account, codes, now, ttl))
  {
    var t := Granted(z, account, codes, now, ttl);
    forall m | m in t ensures IsMember(m) {
      if m !in z {
        var c :| c in NormalCodes(codes) && m == Member(account, c);
        MembersAreMembers(account, c);
      }
    }
  }

  lemma {:induction false} RunEncoded(steps: seq<Step>, ttl: nat, limit: nat)
    ensures Encoded(Run(steps, ttl, limit))
  {
    if steps != [] {
      var z, last := Run(steps[..|steps| - 1], ttl, limit), steps[|steps| - 1];
      RunEncoded(steps[..|steps| - 1], ttl, limit);
      if last.Ask? {
        GrantEncoded(z, last.account, last.codes, last.now, ttl);
      }
    }
  }

  // --- What readers see.

  datatype Row = Row(account: Text, code: Text, expiry: int)

  /** The unexpired rows, decoded. */
  function ActiveRows(z: Rows, now: int): set<Row> {
    set m | m in Live(z, now) && ParseMember(m).Some? :: Row(ParseMember(m).value.first, ParseMember(m).value.rest, z[m])
  }

  /** Readers see the account asking for the code until `expiry`. */
  predicate Readable(z: Rows, now: int, account: Text, code: Text, expiry: int) {
    Row(Strip(account), Normal(code), expiry) in ActiveRows(z, now)
  }

  /** Decoding is exact: an account and code show as a row with some expiry exactly when their own member
      is held until then and has not expired. */
  lemma RowIff(z: Rows, now: int, account: Text, code: Text, expiry: int)
    requires Encoded(z)
    ensures Readable(z, now, account, code, expiry)
       <==> Member(account, code) in z && z[Member(account, code)] == expiry > now
  {
    MemberRoundTrip(account, code);
    var own := Member(account, code);
    if own in z && z[own] == expiry > now {
      assert own in Live(z, now);
    }
    if Readable(z, now, account, code, expiry) {
      var m :| m in Live(z, now) && ParseMember(m) == Some(Pair(Strip(account), Normal(code))) && z[m] == expiry;
      assert IsMember(m);
      StripStrips(account);
      StripStrips(Strip(account));
      NormalIdempotent(code);
    }
  }

  lemma ReadableIfHeld(z: Rows, now: int, account: Text, code: Text, expiry: int)
    requires Encoded(z) && Member(account, code) in z && z[Member(account, code)] == expiry && expiry > now
    ensures Readable(z, now, account, code, expiry)
  {
    RowIff(z, now, account, code, expiry);
  }

  lemma GrantHolds(z: Rows, account: Text, codes: seq<Text>, now: int, ttl: nat, code: Text)
    requires code in codes && Strip(code) != []
    ensures var t := Granted(z, account, codes, now, ttl);
      Member(account, code) in t && t[Member(account, code)] == now + ttl
  {
    MemberRequested(account, codes, code);
  }

  /** After a request that fits, every code asked for is readable until the new expiry. */
  lemma GrantIsReadable(z: Rows, account: Text, codes: seq<Text>, now: int, ttl: nat, code: Text, expiry: int)
    requires Encoded(z) && ttl > 0 && code in codes && Strip(code) != [] && expiry == now + ttl
    ensures Readable(Granted(z, account, codes, now, ttl), now, account, code, expiry)
  {
    GrantEncoded(z, account, codes, now, ttl);
    GrantHolds(z, account, codes, now, ttl, code);
    ReadableIfHeld(Granted(z, account, codes, now, ttl), now, account, code, expiry);
  }

  /** A request is granted exactly if what the account holds unexpired and what it asks for number at most its
      limit together. */
  lemma GrantedIff(z: Rows, account: Text, codes: seq<Text>, now: int, limit: nat)
    ensures Fits(z, account, codes, now, limit)
       <==> |(set m | m in z && z[m] > now && Prefix(account) <= m) + Requested(account, codes)| <= limit
  {
    FitsIff(z, account, codes, now, limit);
    assert Owned(Live(z, now), account) == set m | m in z && z[m] > now && Prefix(account) <= m;
  }

  /** Then every code asked for is readable until the new expiry; refused, only what has expired goes, of any
      account; and a request for no code changes nothing. */
  lemma RequestCases(z: Rows, account: Text, codes: seq<Text>, now: int, ttl: nat, limit: nat)
    ensures var t, asked := Request(z, account, codes, now, ttl, limit), exists code :: code in codes && Strip(code) != [];
      && (asked && Fits(z, account, codes, now, limit) ==> t == Granted(z, account, codes, now, ttl))
      && (asked && !Fits(z, account, codes, now, limit) ==>
            forall m :: (m in t <==> m in z && z[m] > now) && (m in t ==> t[m] == z[m]))
      && (!asked ==> t == z)
  {
    if code :| code in codes && Strip(code) != [] {
      MemberRequested(account, codes, code);
    } else {
      NoCodesAsked(codes);
    }
  }

  lemma NoCodesAsked(codes: seq<Text>)
    requires forall code :: code in codes ==> Strip(code) == []
    ensures NormalCodes(codes) == {}
  {}

  /** In any run a request that fits is granted, */
  lemma RunGrants(steps: seq<Step>, ttl: nat, limit: nat, account: Text, codes: seq<Text>, now: int)
    requires (exists code :: code in codes && Strip(code) != []) && Fits(Run(steps, ttl, limit), account, codes, now, limit)
    ensures Run(steps + [Ask(account, codes, now)], ttl, limit) == Granted(Run(steps, ttl, limit), account, codes, now, ttl)
  {
    RunNext(steps, Ask(account, codes, now), ttl, limit);
    RequestCases(Run(steps, ttl, limit), account, codes, now, ttl, limit);
  }

  /** and readers drop what has expired. */
  lemma RunReads(steps: seq<Step>, ttl: nat, limit: nat, now: int, m: Text)
    ensures m in Run(steps + [Read(now)], ttl, limit) <==> m in Run(steps, ttl, limit) && Run(steps, ttl, limit)[m] > now
  {
    RunNext(steps, Read(now), ttl, limit);
  }

  lemma RunNext(steps: seq<Step>, step: Step, ttl: nat, limit: nat)
    ensures Run(steps + [step], ttl, limit) == Next(Run(steps, ttl, limit), step, ttl, limit)
  {
    assert (steps + [step])[..|steps|] == steps;
  }

  lemma MemberRequested(account: Text, codes: seq<Text>, code: Text)
    requires code in codes && Strip(code) != []
    ensures NormalCodes(codes) != {} && Member(account, code) in Requested(account, codes)
  {
    assert Normal(code) in NormalCodes(codes);
    NormalIdempotent(code);
    assert Member(account, Normal(code)) in Requested(account, codes);
  }

  datatype Result = Until(expiry: int) | NoCodes | LimitExceeded

  class MarketPreSubscriptionStore {
    var rows: Rows
    const ttl: nat
    const maxCodesPerAccount: nat

    /** The source raises for a limit or lifetime that is not positive. */
    constructor (ttl: nat, maxCodesPerAccount: nat)
      requires ttl > 0 && maxCodesPerAccount > 0
      ensures this.ttl == ttl && this.maxCodesPerAccount == maxCodesPerAccount && rows == map[]
    {
      this.ttl, this.maxCodesPerAccount, this.rows := ttl, maxCodesPerAccount, map[];
    }

    /** The first counting loop of the script. */
    method CountStarting(prefix: Text) returns (count: nat)
      ensures count == |Starting(rows, prefix)|
    {
      count := 0;
      ghost var own := Starting(rows, prefix);
      var pending := rows.Keys;
      while pending != {}
        invariant pending <= rows.Keys && count == |own - pending|
        decreases |pending|
      {
        var m :| m in pending;
        Without(own, pending, m);
        if prefix <= m {
          count := count + 1;
        }
        pending := pending - {m};
      }
      assert own - pending == own;
    }

    /** The second counting loop. */
    method CountNew(members: set<Text>) returns (count: nat)
      ensures count == |members - rows.Keys|
    {
      count := 0;
      ghost var own := members - rows.Keys;
      var asked := members;
      while asked != {}
        invariant asked <= members && count == |own - asked|
        decreases |asked|
      {
        var m :| m in asked;
        Without(own, asked, m);
        if m !in rows {
          count := count + 1;
        }
        asked := asked - {m};
      }
      assert own - asked == own;
    }

    method RequestCodes(accountId: Text, codes: seq<Text>, now: int) returns (result: Result)
      modifies this`rows
      ensures rows == Request(old(rows), accountId, codes, now, ttl, maxCodesPerAccount)
      ensures result == if NormalCodes(codes) == {} then NoCodes
                        else if Fits(old(rows), accountId, codes, now, maxCodesPerAccount) then Until(now + ttl)
                        else LimitExceeded
    {
      var normalized := NormalCodes(codes);
      if normalized == {} {
        return NoCodes;
      }
      var members := Requested(accountId, codes);
      rows := Live(rows, now);
      var held := CountStarting(Prefix(accountId));
      var added := CountNew(members);
      if held + added > maxCodesPerAccount {
        return LimitExceeded;
      }
      rows := Added(rows, members, now + ttl);
      return Until(now + ttl);
    }

    method ReadActiveRows(now: int) returns (active: set<Row>)
      modifies this`rows
      ensures rows == Next(old(rows), Read(now), ttl, maxCodesPerAccount)
      ensures active == ActiveRows(old(rows), now)
    {
      active := ActiveRows(rows, now);
      rows := Live(rows, now);
    }

    method ListActiveContractCodes(now: int) returns (codes: set<Text>)
      modifies this`rows
      ensures rows == Live(old(rows), now)
      ensures codes == set r | r in ActiveRows(old(rows), now) :: r.code
    {
      var active := ReadActiveRows(now);
      codes := set r | r in active :: r.code;
    }
  }

  /** One element fewer pending counts it if it is wanted. */
  lemma Without(own: set<Text>, pending: set<Text>, m: Text)
    requires m in pending
    ensures |own - (pending - {m})| == |own - pending| + if m in own then 1 else 0
  {
    assert own - (pending - {m}) == (own - pending) + if m in own then {m} else {};
  }
}

/** Usage accounting: records of token counts and their totals, over all and by group.
    Counts in a record are 32-bit, totals 64-bit; sums wrap around at their width. */
module Usage {

  const U32: nat := 0x1_0000_0000
  const U64: nat := 0x1_0000_0000_0000_0000

  type u32 = n: nat | n < 0x1_0000_0000

  datatype UsageRecord = UsageRecord(
    timestamp: nat, provider: string, model: string, role: string,
    promptTokens: u32, completionTokens: u32, totalTokens: u32)

  datatype GroupUsage = GroupUsage(requests: nat, totalTokens: nat)

  datatype UsageSummary = UsageSummary(
    totalRequests: nat, totalPromptTokens: nat, totalCompletionTokens: nat, totalTokens: nat,
    byProvider: map<string, GroupUsage>, byRole: map<string, GroupUsage>)

  /** What a record is grouped by. */
  datatype Key = Provider | Role

  function KeyOf(key: Key, r: UsageRecord): string {
    if key == Provider then r.provider else r.role
  }

  // -------------------------------------------------- unbounded accounting

  function PromptSum(rs: seq<UsageRecord>): nat {
    if rs == [] then 0 else PromptSum(rs[..|rs| - 1]) + rs[|rs| - 1].promptTokens
  }

  function CompletionSum(rs: seq<UsageRecord>): nat {
    if rs == [] then 0 else CompletionSum(rs[..|rs| - 1]) + rs[|rs| - 1].completionTokens
  }

  function TokenSum(rs: seq<UsageRecord>): nat {
    if rs == [] then 0 else TokenSum(rs[..|rs| - 1]) + rs[|rs| - 1].totalTokens
  }

  /** The records of one group. */
  function Group(key: Key, name: string, rs: seq<UsageRecord>): (g: seq<UsageRecord>)
    ensures |g| <= |rs|
  {
    if rs == [] then []
    else Group(key, name, rs[..|rs| - 1]) + if KeyOf(key, rs[|rs| - 1]) == name then [rs[|rs| - 1]] else []
  }

  /** What a 64-bit counter shows of a number: it starts over at every multiple of its range. */
  function Wrap(n: nat): nat {
    if n < U64 then n else Wrap(n - U64)
  }

  lemma {:induction false} WrapAdd(a: nat, b: nat)
    ensures Wrap(Wrap(a) + b) == Wrap(a + b)
  {
    if a >= U64 {
      WrapAdd(a - U64, b);
    }
  }

  lemma WrapBoth(a: nat, b: nat)
    ensures Wrap(Wrap(a) + Wrap(b)) == Wrap(a + b)
  {
    WrapAdd(a, Wrap(b));
    WrapAdd(b, a);
  }

  lemma WrapSmall(n: nat)
    requires n < U64
    ensures Wrap(n) == n
  {
  }

  function Figures(key: Key, name: string, rs: seq<UsageRecord>): GroupUsage {
    GroupUsage(Wrap(|Group(key, name, rs)|), Wrap(TokenSum(Group(key, name, rs))))
  }

  /** One more record of a group. */
  function Count(m: map<string, GroupUsage>, name: string, tokens: nat): map<string, GroupUsage> {
    var g := if name in m then m[name] else GroupUsage(0, 0);
    m[name := GroupUsage(Wrap(g.requests + 1), Wrap(g.totalTokens + tokens))]
  }

  function Grouped(key: Key, rs: seq<UsageRecord>): map<string, GroupUsage> {
    if rs == [] then map[]
    else
      var r := rs[|rs| - 1];
      Count(Grouped(key, rs[..|rs| - 1]), KeyOf(key, r), r.totalTokens)
  }

  /** What the code's total of a record is: the 32-bit sum. */
  function WrappedTotal(promptTokens: u32, completionTokens: u32): u32 {
    (promptTokens + completionTokens) % U32
  }

  predicate Recorded(rs: seq<UsageRecord>) {
    forall i :: 0 <= i < |rs| ==> rs[i].totalTokens == WrappedTotal(rs[i].promptTokens, rs[i].completionTokens)
  }

  // --------------------------------------------------------------- tracker

  lemma GroupLast(key: Key, name: string, rs: seq<UsageRecord>)
    requires rs != []
    ensures var n := |rs| - 1;
            var r, before := rs[n], Group(key, name, rs[..n]);
            && (KeyOf(key, r) != name ==> Group(key, name, rs) == before)
            && (KeyOf(key, r) == name ==> |Group(key, name, rs)| == |before| + 1
                                          && TokenSum(Group(key, name, rs)) == TokenSum(before) + r.totalTokens)
  {
    var n := |rs| - 1;
    var g := Group(key, name, rs[..n]);
    assert (g + [rs[n]])[..|g|] == g;
    assert g + [] == g;
  }

  lemma BumpFigures(size: nat, tokens: nat, more: nat)
    ensures GroupUsage(Wrap(size + 1), Wrap(tokens + more)) == GroupUsage(Wrap(Wrap(size) + 1), Wrap(Wrap(tokens) + more))
  {
    WrapAdd(size, 1);
    WrapAdd(tokens, more);
  }

  lemma FiguresLast(key: Key, name: string, rs: seq<UsageRecord>)
    requires rs != []
    ensures var n := |rs| - 1;
            var r, g := rs[n], Figures(key, name, rs[..n]);
            Figures(key, name, rs) ==
            if KeyOf(key, r) == name then GroupUsage(Wrap(g.requests + 1), Wrap(g.totalTokens + r.totalTokens)) else g
  {
    var n := |rs| - 1;
    GroupLast(key, name, rs);
    if KeyOf(key, rs[n]) == name {
      BumpFigures(|Group(key, name, rs[..n])|, TokenSum(Group(key, name, rs[..n])), rs[n].totalTokens);
    }
  }

  /** The groups are the names that occur. */
  lemma {:induction false} GroupedNames(key: Key, name: string, rs: seq<UsageRecord>)
    ensures name in Grouped(key, rs) <==> exists i :: 0 <= i < |rs| && KeyOf(key, rs[i]) == name
    decreases |rs|
  {
    if rs != [] {
      var n := |rs| - 1;
      GroupedNames(key, name, rs[..n]);
      if i :| 0 <= i < |rs| && KeyOf(key, rs[i]) == name {
        if i < n { assert KeyOf(key, rs[..n][i]) == name; }
      }
    }
  }

  /** The figures g of one group before a count, and g' after it. */
  lemma CountFigures(m: map<string, GroupUsage>, name: string, counted: string, tokens: nat, g: GroupUsage, g': GroupUsage)
    requires g == if name in m then m[name] else GroupUsage(0, 0)
    requires g' == if counted == name then GroupUsage(Wrap(g.requests + 1), Wrap(g.totalTokens + tokens)) else g
    ensures g' == if name in Count(m, counted, tokens) then Count(m, counted, tokens)[name] else GroupUsage(0, 0)
  {
  }

  /** The figures of a group are those of its records. */
  lemma {:induction false} GroupedFigures(key: Key, name: string, rs: seq<UsageRecord>)
    ensures Figures(key, name, rs) == if name in Grouped(key, rs) then Grouped(key, rs)[name] else GroupUsage(0, 0)
    decreases |rs|
  {
    if rs != [] {
      var before, r := rs[..|rs| - 1], rs[|rs| - 1];
      GroupedFigures(key, name, before);
      FiguresLast(key, name, rs);
      CountFigures(Grouped(key, before), name, KeyOf(key, r), r.totalTokens, Figures(key, name, before), Figures(key, name, rs));
    }
  }

  /** The three running totals. */
  datatype Totals = Totals(requests: nat, prompt: nat, completion: nat)

  function Add(t: Totals, r: UsageRecord): Totals {
    Totals(Wrap(t.requests + 1), Wrap(t.prompt + r.promptTokens), Wrap(t.completion + r.completionTokens))
  }

  function TotalsOf(rs: seq<UsageRecord>): Totals {
    if rs == [] then Totals(0, 0, 0) else Add(TotalsOf(rs[..|rs| - 1]), rs[|rs| - 1])
  }

  lemma {:induction false} TotalsMeaning(rs: seq<UsageRecord>)
    ensures TotalsOf(rs) == Totals(Wrap(|rs|), Wrap(PromptSum(rs)), Wrap(CompletionSum(rs)))
    decreases |rs|
  {
    if rs != [] {
      var before, r := rs[..|rs| - 1], rs[|rs| - 1];
      TotalsMeaning(before);
      WrapAdd(|before|, 1);
      WrapAdd(PromptSum(before), r.promptTokens);
      WrapAdd(CompletionSum(before), r.completionTokens);
    }
  }

  lemma GroupedLast(key: Key, rs: seq<UsageRecord>, n: nat)
    requires n < |rs|
    ensures Grouped(key, rs[..n + 1]) == Count(Grouped(key, rs[..n]), KeyOf(key, rs[n]), rs[n].totalTokens)
    ensures TotalsOf(rs[..n + 1]) == Add(TotalsOf(rs[..n]), rs[n])
  {
    assert rs[..n + 1][..n] == rs[..n];
  }

  class UsageTracker {
    var records: seq<UsageRecord>

    ghost predicate Valid()
      reads this
    {
      Recorded(records)
    }

    constructor ()
      ensures Valid() && records == []
    {
      records := [];
    }

    method Record(provider: string, model: string, role: string, promptTokens: u32, completionTokens: u32, now: nat)
      requires Valid()
      modifies this
      ensures Valid()
      ensures records == old(records)
        + [UsageRecord(now, provider, model, role, promptTokens, completionTokens, WrappedTotal(promptTokens, completionTokens))]
    {
      var totalTokens: u32 := (promptTokens + completionTokens) % U32;
      records := records + [UsageRecord(now, provider, model, role, promptTokens, completionTokens, totalTokens)];
    }

    method Summary() returns (s: UsageSummary)
      ensures s.totalRequests == Wrap(|records|)
      ensures s.totalPromptTokens == Wrap(PromptSum(records))
      ensures s.totalCompletionTokens == Wrap(CompletionSum(records))
      ensures s.totalTokens == Wrap(PromptSum(records) + CompletionSum(records))
      ensures s.byProvider == Grouped(Provider, records)
      ensures s.byRole == Grouped(Role, records)
    {
      var requests: nat, prompt: nat, completion: nat := 0, 0, 0;
      var byProvider: map<string, GroupUsage> := map[];
      var byRole: map<string, GroupUsage> := map[];
      for i := 0 to |records|
        invariant Totals(requests, prompt, completion) == TotalsOf(records[..i])
        invariant byProvider == Grouped(Provider, records[..i])
        invariant byRole == Grouped(Role, records[..i])
      {
        var record := records[i];
        GroupedLast(Provider, records, i);
        GroupedLast(Role, records, i);
        requests := Wrap(requests + 1);
        prompt := Wrap(prompt + record.promptTokens);
        completion := Wrap(completion + record.completionTokens);
        byProvider := Count(byProvider, record.provider, record.totalTokens);
        byRole := Count(byRole, record.role, record.totalTokens);
      }
      assert records[..|records|] == records;
      TotalsMeaning(records);
      WrapBoth(PromptSum(records), CompletionSum(records));
      s := UsageSummary(requests, prompt, completion, Wrap(prompt + completion), byProvider, byRole);
    }

    /** The last records, in the order they were made. */
    method Recent(limit: nat) returns (rs: seq<UsageRecord>)
      ensures |rs| == if |records| > limit then limit else |records|
      ensures exists older :: records == older + rs
    {
      var start := if |records| > limit then |records| - limit else 0;
      rs := records[start..];
      assert records == records[..start] + rs;
    }
  }

  // ------------------------------------------------- what the figures are of

  /** One record: its own counts, in the group of its provider and in that of its role. */
  lemma OneRecord(r: UsageRecord, name: string)
    ensures PromptSum([r]) == r.promptTokens && CompletionSum([r]) == r.completionTokens && TokenSum([r]) == r.totalTokens
    ensures Group(Provider, name, [r]) == if r.provider == name then [r] else []
    ensures Group(Role, name, [r]) == if r.role == name then [r] else []
  {
    assert [r][..0] == [];
    assert Group(Provider, name, []) == [] && Group(Role, name, []) == [];
    assert [] + [r] == [r];
  }

  /** Records recorded one after the other add up, over all and in every group. */
  lemma {:induction false} FiguresAdd(key: Key, name: string, a: seq<UsageRecord>, b: seq<UsageRecord>)
    ensures PromptSum(a + b) == PromptSum(a) + PromptSum(b)
    ensures CompletionSum(a + b) == CompletionSum(a) + CompletionSum(b)
    ensures TokenSum(a + b) == TokenSum(a) + TokenSum(b)
    ensures Group(key, name, a + b) == Group(key, name, a) + Group(key, name, b)
    decreases |b|
  {
    if b == [] {
      assert a + b == a;
    } else {
      assert (a + b)[..|a + b| - 1] == a + b[..|b| - 1];
      FiguresAdd(key, name, a, b[..|b| - 1]);
    }
  }

  /** Where a 64-bit counter starts over. */
  lemma CounterRange(n: nat)
    ensures n < 0x1_0000_0000_0000_0000 ==> Wrap(n) == n
    ensures Wrap(n + 0x1_0000_0000_0000_0000) == Wrap(n)
  {
  }

  // ----------------------------------------------------------- conservation

  /** The sum of all values, in any order. */
  ghost function Sum(m: map<string, nat>): nat
    decreases |m|
  {
    if m == map[] then 0
    else
      var k :| k in m;
      assert |(m - {k}).Keys| < |m.Keys|;
      m[k] + Sum(m - {k})
  }

  lemma {:induction false} SumTakesOut(m: map<string, nat>, k: string)
    requires k in m
    ensures Sum(m) == m[k] + Sum(m - {k})
    decreases |m|
  {
    var first :| first in m && Sum(m) == m[first] + Sum(m - {first});
    if first != k {
      assert |(m - {first}).Keys| < |m.Keys| && |(m - {k}).Keys| < |m.Keys|;
      SumTakesOut(m - {first}, k);
      SumTakesOut(m - {k}, first);
      assert m - {first} - {k} == m - {k} - {first};
    }
  }

  lemma SumPuts(m: map<string, nat>, k: string, v: nat)
    ensures Sum(m[k := v]) == Sum(m) - (if k in m then m[k] else 0) + v
  {
    SumTakesOut(m[k := v], k);
    assert m[k := v] - {k} == m - {k};
    if k in m {
      SumTakesOut(m, k);
    } else {
      assert m - {k} == m;
    }
  }

  /** How many records had a 32-bit sum out of range. */
  function Overflowed(rs: seq<UsageRecord>): nat {
    if rs == [] then 0
    else
      var r := rs[|rs| - 1];
      Overflowed(rs[..|rs| - 1]) + if r.promptTokens + r.completionTokens >= U32 then 1 else 0
  }

  lemma {:induction false} TokenSumAccount(rs: seq<UsageRecord>)
    requires Recorded(rs)
    ensures TokenSum(rs) + U32 * Overflowed(rs) == PromptSum(rs) + CompletionSum(rs)
    ensures TokenSum(rs) <= |rs| * (U32 - 1)
    ensures PromptSum(rs) <= |rs| * (U32 - 1) && CompletionSum(rs) <= |rs| * (U32 - 1)
    ensures Overflowed(rs) == 0 <==> forall i :: 0 <= i < |rs| ==> rs[i].promptTokens + rs[i].completionTokens < U32
  {
    if rs != [] {
      TokenSumAccount(rs[..|rs| - 1]);
      assert rs == rs[..|rs| - 1] + [rs[|rs| - 1]];
    }
  }

  lemma {:induction false} GroupRecorded(key: Key, name: string, rs: seq<UsageRecord>)
    requires Recorded(rs)
    ensures Recorded(Group(key, name, rs))
  {
    if rs != [] {
      GroupRecorded(key, name, rs[..|rs| - 1]);
    }
  }

  function RequestFigures(m: map<string, GroupUsage>): map<string, nat> {
    map name | name in m :: m[name].requests
  }

  function TokenFigures(m: map<string, GroupUsage>): map<string, nat> {
    map name | name in m :: m[name].totalTokens
  }

  /** Up to 2^31 records no group's 64-bit counters wrap. */
  lemma GroupFits(key: Key, name: string, rs: seq<UsageRecord>)
    requires Recorded(rs) && |rs| <= 0x8000_0000
    ensures Figures(key, name, rs) == GroupUsage(|Group(key, name, rs)|, TokenSum(Group(key, name, rs)))
    ensures TokenSum(Group(key, name, rs)) <= 0x8000_0000 * (U32 - 1)
  {
    GroupRecorded(key, name, rs);
    TokenSumAccount(Group(key, name, rs));
    WrapSmall(|Group(key, name, rs)|);
    WrapSmall(TokenSum(Group(key, name, rs)));
  }

  lemma CountFiguresAdd(m: map<string, GroupUsage>, name: string, tokens: nat, g: GroupUsage)
    requires g == if name in m then m[name] else GroupUsage(0, 0)
    requires g.requests + 1 < U64 && g.totalTokens + tokens < U64
    ensures RequestFigures(Count(m, name, tokens)) == RequestFigures(m)[name := g.requests + 1]
    ensures TokenFigures(Count(m, name, tokens)) == TokenFigures(m)[name := g.totalTokens + tokens]
  {
    WrapSmall(g.requests + 1);
    WrapSmall(g.totalTokens + tokens);
  }

  lemma CountAdds(m: map<string, GroupUsage>, name: string, tokens: nat)
    requires name in m ==> m[name].requests + 1 < U64 && m[name].totalTokens + tokens < U64
    requires tokens < U32
    ensures Sum(RequestFigures(Count(m, name, tokens))) == Sum(RequestFigures(m)) + 1
    ensures Sum(TokenFigures(Count(m, name, tokens))) == Sum(TokenFigures(m)) + tokens
  {
    var g := if name in m then m[name] else GroupUsage(0, 0);
    CountFiguresAdd(m, name, tokens, g);
    SumPuts(RequestFigures(m), name, g.requests + 1);
    SumPuts(TokenFigures(m), name, g.totalTokens + tokens);
  }

  /** Grouping loses nothing and counts nothing twice. */
  lemma {:induction false} GroupsConserve(key: Key, rs: seq<UsageRecord>)
    requires Recorded(rs) && |rs| <= 0x8000_0000
    ensures Sum(RequestFigures(Grouped(key, rs))) == |rs|
    ensures Sum(TokenFigures(Grouped(key, rs))) == TokenSum(rs)
    decreases |rs|
  {
    if rs != [] {
      var n := |rs| - 1;
      var name := KeyOf(key, rs[n]);
      GroupsConserve(key, rs[..n]);
      GroupedFigures(key, name, rs[..n]);
      GroupFits(key, name, rs[..n]);
      CountAdds(Grouped(key, rs[..n]), name, rs[n].totalTokens);
    }
  }

  lemma TotalsFit(rs: seq<UsageRecord>)
    requires Recorded(rs) && |rs| <= 0x8000_0000
    ensures Wrap(|rs|) == |rs|
    ensures Wrap(PromptSum(rs) + CompletionSum(rs)) == PromptSum(rs) + CompletionSum(rs)
  {
    TokenSumAccount(rs);
    WrapSmall(|rs|);
    WrapSmall(PromptSum(rs) + CompletionSum(rs));
  }

  /** The groups' requests add up to all requests, by provider as by role; so do their tokens to each other,
      and to the overall tokens exactly when no record's 32-bit sum overflowed. */
  ghost predicate Conserves(rs: seq<UsageRecord>, byProvider: map<string, GroupUsage>, byRole: map<string, GroupUsage>,
                            totalRequests: nat, totalTokens: nat)
  {
    && Sum(RequestFigures(byProvider)) == Sum(RequestFigures(byRole)) == totalRequests == |rs|
    && Sum(TokenFigures(byProvider)) == Sum(TokenFigures(byRole))
    && (Sum(TokenFigures(byProvider)) == totalTokens <==>
          forall i :: 0 <= i < |rs| ==> rs[i].promptTokens + rs[i].completionTokens < U32)
  }

  /** The figures of every summary of up to 2^31 records. */
  lemma SummaryConserves(rs: seq<UsageRecord>)
    requires Recorded(rs) && |rs| <= 0x8000_0000
    ensures Conserves(rs, Grouped(Provider, rs), Grouped(Role, rs), Wrap(|rs|), Wrap(PromptSum(rs) + CompletionSum(rs)))
  {
    GroupsConserve(Provider, rs);
    GroupsConserve(Role, rs);
    TokenSumAccount(rs);
    TotalsFit(rs);
  }

  /** The instance: one record whose 32-bit sum overflows shows no tokens in its groups and 2^32 overall. */
  lemma OverflowDisagrees(r: UsageRecord)
    requires r.promptTokens == 0xFFFF_FFFF && r.completionTokens == 1
    requires r.totalTokens == WrappedTotal(r.promptTokens, r.completionTokens)
    ensures Sum(TokenFigures(Grouped(Provider, [r]))) == 0
    ensures Sum(TokenFigures(Grouped(Role, [r]))) == 0
    ensures Wrap(PromptSum([r]) + CompletionSum([r])) == 0x1_0000_0000
  {
    var rs := [r];
    assert rs[..0] == [];
    assert PromptSum(rs) == PromptSum([]) + r.promptTokens;
    assert CompletionSum(rs) == CompletionSum([]) + r.completionTokens;
    assert TokenSum(rs) == TokenSum([]) + r.totalTokens;
    GroupsConserve(Provider, rs);
    GroupsConserve(Role, rs);
    WrapSmall(PromptSum(rs) + CompletionSum(rs));
  }
}

/** The in-memory ledger: bounded storage, filtered and paged queries, cost summaries. */
module InMemoryLedger {
  import opened Options

  /** The fields queries look at; `createdAt` is an instant. */
  datatype Record = Record(
    tenant: string, agent: string, capability: string, status: string, mode: Option<string>,
    cost: real, createdAt: int)

  // ----- Python slices -----

  /** `s[i:]`: a negative index counts from the end. */
  function From<T>(s: seq<T>, i: int): seq<T> {
    if i >= |s| then [] else if i >= 0 then s[i..] else if |s| + i >= 0 then s[|s| + i..] else s
  }

  /** `s[:i]`. */
  function Upto<T>(s: seq<T>, i: int): seq<T> {
    if i >= |s| then s else if i >= 0 then s[..i] else if |s| + i >= 0 then s[..|s| + i] else []
  }

  /** Cutting at any index, from either end, loses nothing and repeats nothing. */
  lemma SlicesMeet<T>(s: seq<T>, i: int)
    ensures Upto(s, i) + From(s, i) == s
    ensures 0 <= i <= |s| ==> |Upto(s, i)| == i
    ensures -|s| <= i < 0 ==> |From(s, i)| == -i
    ensures |s| <= i ==> From(s, i) == []
    ensures i <= -|s| && i < 0 ==> Upto(s, i) == []
  {
  }

  // ----- Storage -----

  function Store(records: seq<Record>, max: int, r: Record): seq<Record> {
    var longer := records + [r];
    if |longer| > max then From(longer, -max) else longer
  }

  function StoreAll(max: int, history: seq<Record>): seq<Record> {
    if history == [] then [] else Store(StoreAll(max, history[..|history| - 1]), max, history[|history| - 1])
  }

  function Latest(history: seq<Record>, n: nat): seq<Record> {
    if |history| <= n then history else history[|history| - n..]
  }

  lemma StoreLatest(history: seq<Record>, max: int, r: Record)
    requires 1 <= max
    ensures Store(Latest(history, max), max, r) == Latest(history + [r], max)
  {
  }

  /** With a positive bound exactly the latest records are kept.  With a bound of zero the truncating
      slice starts at zero and keeps everything; with a negative bound nothing is kept. */
  lemma {:induction false} StoredRecords(max: int, history: seq<Record>)
    ensures StoreAll(max, history) == if max == 0 then history else if max < 0 then [] else Latest(history, max)
  {
    if history != [] {
      var n := |history| - 1;
      StoredRecords(max, history[..n]);
      assert history == history[..n] + [history[n]];
      if 1 <= max { StoreLatest(history[..n], max, history[n]); }
    }
  }

  /** The bound holds on every history exactly when it is not zero. */
  lemma StorageIsBounded(max: int)
    ensures (forall history :: |StoreAll(max, history)| <= (if max < 0 then 0 else max)) <==> max != 0
  {
    forall history ensures max != 0 ==> |StoreAll(max, history)| <= (if max < 0 then 0 else max) {
      StoredRecords(max, history);
    }
    var one := [Record("t", "a", "c", "s", None, 0.0, 0)];
    StoredRecords(max, one);
    assert max == 0 ==> |StoreAll(max, one)| == 1;
  }

  // ----- Queries -----

  datatype Order = Unordered | Ascending | Descending

  datatype Filters = Filters(
    agent: Option<string>, capability: Option<string>, status: Option<string>, mode: Option<string>,
    start: Option<int>, end: Option<int>, order: Order, offset: Option<int>, limit: Option<int>)

  datatype Criterion =
    | Tenant(text: string) | Agent(text: string) | Capability(text: string) | Status(text: string)
    | ExecutionMode(text: string) | NotBefore(time: int) | NotAfter(time: int)

  predicate Meets(c: Criterion, r: Record) {
    match c
    case Tenant(x) => r.tenant == x
    case Agent(x) => r.agent == x
    case Capability(x) => r.capability == x
    case Status(x) => r.status == x
    case ExecutionMode(x) => r.mode == Some(x)
    case NotBefore(t) => r.createdAt >= t
    case NotAfter(t) => r.createdAt <= t
  }

  predicate MeetsAll(cs: seq<Criterion>, r: Record) {
    forall i :: 0 <= i < |cs| ==> Meets(cs[i], r)
  }

  /** The records that meet every criterion, in order. */
  function Where(s: seq<Record>, cs: seq<Criterion>): seq<Record> {
    if s == [] then [] else Where(s[..|s| - 1], cs) + (if MeetsAll(cs, s[|s| - 1]) then [s[|s| - 1]] else [])
  }

  function AndIf(cs: seq<Criterion>, c: Option<Criterion>): seq<Criterion> {
    if c.Some? then cs + [c.value] else cs
  }

  function IfText(o: Option<string>, make: string -> Criterion): Option<Criterion> {
    if o.Some? then Some(make(o.value)) else None
  }

  function IfTime(o: Option<int>, make: int -> Criterion): Option<Criterion> {
    if o.Some? then Some(make(o.value)) else None
  }

  /** The criteria a filter sets, in the order in which they are applied. */
  function Criteria(tenant: string, f: Filters): seq<Criterion> {
    var cs := AndIf([Tenant(tenant)], IfText(f.agent, x => Agent(x)));
    var cs := AndIf(cs, IfText(f.capability, x => Capability(x)));
    var cs := AndIf(cs, IfText(f.status, x => Status(x)));
    var cs := AndIf(cs, IfText(f.mode, x => ExecutionMode(x)));
    var cs := AndIf(cs, IfTime(f.start, t => NotBefore(t)));
    AndIf(cs, IfTime(f.end, t => NotAfter(t)))
  }

  lemma WhereAppend(s: seq<Record>, x: Record, cs: seq<Criterion>)
    ensures Where(s + [x], cs) == Where(s, cs) + (if MeetsAll(cs, x) then [x] else [])
  {
    assert (s + [x])[..|s|] == s;
  }

  lemma {:induction false} WhereTwice(s: seq<Record>, cs: seq<Criterion>, c: Criterion)
    ensures Where(Where(s, cs), [c]) == Where(s, cs + [c])
  {
    if s != [] {
      var n := |s| - 1;
      var x, before := s[n], Where(s[..n], cs);
      WhereTwice(s[..n], cs, c);
      MeetsMore(cs, c, x);
      MeetsMore([], c, x);
      assert [] + [c] == [c];
      WhereAppend(before, x, [c]);
      assert before + [] == before;
    }
  }

  lemma MeetsMore(cs: seq<Criterion>, c: Criterion, r: Record)
    ensures MeetsAll(cs + [c], r) <==> MeetsAll(cs, r) && Meets(c, r)
  {
    assert (cs + [c])[|cs|] == c;
    forall i | 0 <= i < |cs| ensures (cs + [c])[i] == cs[i] {}
  }

  /** `x` has to come before `y`. */
  predicate Precedes(order: Order, x: Record, y: Record) {
    match order
    case Unordered => false
    case Ascending => x.createdAt < y.createdAt
    case Descending => x.createdAt > y.createdAt
  }

  function Insert(order: Order, sorted: seq<Record>, x: Record): seq<Record> {
    if sorted == [] || !Precedes(order, x, sorted[|sorted| - 1]) then sorted + [x]
    else Insert(order, sorted[..|sorted| - 1], x) + [sorted[|sorted| - 1]]
  }

  function Sort(order: Order, s: seq<Record>): seq<Record> {
    if s == [] then [] else Insert(order, Sort(order, s[..|s| - 1]), s[|s| - 1])
  }

  predicate Sorted(order: Order, s: seq<Record>) {
    forall i, j :: 0 <= i < j < |s| ==> !Precedes(order, s[j], s[i])
  }

  function AtTime(s: seq<Record>, t: int): seq<Record> {
    if s == [] then []
    else if s[|s| - 1].createdAt == t then AtTime(s[..|s| - 1], t) + [s[|s| - 1]]
    else AtTime(s[..|s| - 1], t)
  }

  lemma AtTimeAppend(s: seq<Record>, x: Record, t: int)
    ensures AtTime(s + [x], t) == if x.createdAt == t then AtTime(s, t) + [x] else AtTime(s, t)
  {
    assert (s + [x])[..|s|] == s;
  }

  lemma {:induction false} InsertKeepsAll(order: Order, sorted: seq<Record>, x: Record)
    ensures multiset(Insert(order, sorted, x)) == multiset(sorted) + multiset{x}
  {
    if sorted != [] && Precedes(order, x, sorted[|sorted| - 1]) {
      var n := |sorted| - 1;
      InsertKeepsAll(order, sorted[..n], x);
      LastJoins(sorted);
    }
  }

  lemma LastJoins(s: seq<Record>)
    requires s != []
    ensures multiset(s) == multiset(s[..|s| - 1]) + multiset{s[|s| - 1]}
  {
    assert s == s[..|s| - 1] + [s[|s| - 1]];
  }

  lemma {:induction false} InsertIsStable(order: Order, sorted: seq<Record>, x: Record, t: int)
    ensures AtTime(Insert(order, sorted, x), t)
         == if x.createdAt == t then AtTime(sorted, t) + [x] else AtTime(sorted, t)
  {
    if sorted == [] || !Precedes(order, x, sorted[|sorted| - 1]) {
      AtTimeAppend(sorted, x, t);
    } else {
      var n := |sorted| - 1;
      var last, rest := sorted[n], AtTime(sorted[..n], t);
      InsertIsStable(order, sorted[..n], x, t);
      AtTimeAppend(Insert(order, sorted[..n], x), last, t);
      AtTimeAppend(sorted[..n], last, t);
      assert sorted == sorted[..n] + [last];
      assert last.createdAt != x.createdAt;
      assert AtTime(sorted, t) == (if last.createdAt == t then rest + [last] else rest);
    }
  }

  /** No element of `s` has to come after `y`. */
  predicate NoneAfter(order: Order, s: seq<Record>, y: Record) {
    forall i :: 0 <= i < |s| ==> !Precedes(order, y, s[i])
  }

  lemma {:induction false} InsertBefore(order: Order, s: seq<Record>, x: Record, y: Record)
    requires NoneAfter(order, s, y) && !Precedes(order, y, x)
    ensures NoneAfter(order, Insert(order, s, x), y)
  {
    if s != [] && Precedes(order, x, s[|s| - 1]) { InsertBefore(order, s[..|s| - 1], x, y); }
  }

  lemma SortedAppend(order: Order, s: seq<Record>, y: Record)
    requires Sorted(order, s) && NoneAfter(order, s, y)
    ensures Sorted(order, s + [y])
  {
  }

  lemma {:induction false} InsertSorts(order: Order, sorted: seq<Record>, x: Record)
    requires Sorted(order, sorted)
    ensures Sorted(order, Insert(order, sorted, x))
  {
    if sorted == [] || !Precedes(order, x, sorted[|sorted| - 1]) {
      SortedAppend(order, sorted, x);
    } else {
      var n := |sorted| - 1;
      InsertSorts(order, sorted[..n], x);
      InsertBefore(order, sorted[..n], x, sorted[n]);
      SortedAppend(order, Insert(order, sorted[..n], x), sorted[n]);
    }
  }

  lemma {:induction false} SortOrders(order: Order, s: seq<Record>)
    ensures Sorted(order, Sort(order, s)) && multiset(Sort(order, s)) == multiset(s)
  {
    if s != [] {
      var n := |s| - 1;
      SortOrders(order, s[..n]);
      InsertSorts(order, Sort(order, s[..n]), s[n]);
      InsertKeepsAll(order, Sort(order, s[..n]), s[n]);
      assert s == s[..n] + [s[n]];
    }
  }

  lemma {:induction false} SortKeepsTies(order: Order, s: seq<Record>, t: int)
    ensures AtTime(Sort(order, s), t) == AtTime(s, t)
  {
    if s != [] {
      var n := |s| - 1;
      SortKeepsTies(order, s[..n], t);
      InsertIsStable(order, Sort(order, s[..n]), s[n], t);
    }
  }

  /** The sort orders by time, keeps every record, and is stable: records created at the same time
      stay in storage order, also in the descending direction. */
  lemma SortIsStable(order: Order, s: seq<Record>, t: int)
    ensures Sorted(order, Sort(order, s)) && multiset(Sort(order, s)) == multiset(s)
    ensures AtTime(Sort(order, s), t) == AtTime(s, t)
  {
    SortOrders(order, s);
    SortKeepsTies(order, s, t);
  }

  predicate NeverBack(s: seq<Record>) { forall i, j :: 0 <= i < j < |s| ==> s[i].createdAt <= s[j].createdAt }

  predicate NeverForward(s: seq<Record>) { forall i, j :: 0 <= i < j < |s| ==> s[i].createdAt >= s[j].createdAt }

  /** Ascending answers do not go back in time, descending ones not forward, and without an order the
      records stay as they are stored. */
  lemma SortDirection(s: seq<Record>)
    ensures NeverBack(Sort(Ascending, s)) && NeverForward(Sort(Descending, s)) && Sort(Unordered, s) == s
  {
    SortOrders(Ascending, s);
    SortOrders(Descending, s);
    SortedDirection(Sort(Ascending, s));
    SortedDirection(Sort(Descending, s));
    UnorderedSort(s);
  }

  lemma SortedDirection(s: seq<Record>)
    ensures Sorted(Ascending, s) ==> NeverBack(s)
    ensures Sorted(Descending, s) ==> NeverForward(s)
  {
  }

  // ----- Which records an answer holds -----

  /** The record is the tenant's and agrees with every filter that is set. */
  predicate Wanted(r: Record, tenant: string, f: Filters) {
    && r.tenant == tenant
    && (f.agent.Some? ==> r.agent == f.agent.value)
    && (f.capability.Some? ==> r.capability == f.capability.value)
    && (f.status.Some? ==> r.status == f.status.value)
    && (f.mode.Some? ==> r.mode == f.mode)
    && (f.start.Some? ==> f.start.value <= r.createdAt)
    && (f.end.Some? ==> r.createdAt <= f.end.value)
  }

  lemma CriteriaAreWanted(r: Record, tenant: string, f: Filters)
    ensures MeetsAll(Criteria(tenant, f), r) <==> Wanted(r, tenant, f)
  {
    var cs := [Tenant(tenant)];
    assert MeetsAll(cs, r) <==> Meets(cs[0], r);
    AndIfMeets(cs, IfText(f.agent, x => Agent(x)), r);
    cs := AndIf(cs, IfText(f.agent, x => Agent(x)));
    AndIfMeets(cs, IfText(f.capability, x => Capability(x)), r);
    cs := AndIf(cs, IfText(f.capability, x => Capability(x)));
    AndIfMeets(cs, IfText(f.status, x => Status(x)), r);
    cs := AndIf(cs, IfText(f.status, x => Status(x)));
    AndIfMeets(cs, IfText(f.mode, x => ExecutionMode(x)), r);
    cs := AndIf(cs, IfText(f.mode, x => ExecutionMode(x)));
    AndIfMeets(cs, IfTime(f.start, t => NotBefore(t)), r);
    cs := AndIf(cs, IfTime(f.start, t => NotBefore(t)));
    AndIfMeets(cs, IfTime(f.end, t => NotAfter(t)), r);
  }

  lemma AndIfMeets(cs: seq<Criterion>, c: Option<Criterion>, r: Record)
    ensures MeetsAll(AndIf(cs, c), r) <==> MeetsAll(cs, r) && (c.Some? ==> Meets(c.value, r))
  {
    if c.Some? { MeetsMore(cs, c.value, r); }
  }

  lemma {:induction false} WhereCounts(s: seq<Record>, cs: seq<Criterion>, r: Record)
    ensures multiset(Where(s, cs))[r] == if MeetsAll(cs, r) then multiset(s)[r] else 0
  {
    if s != [] {
      WhereCounts(s[..|s| - 1], cs, r);
      LastJoins(s);
    }
  }

  /** A record occurs in the unpaged answer as often as it is stored if it is wanted, and else not at
      all; in the order of the query or of storage. */
  lemma AnswerHoldsWanted(records: seq<Record>, tenant: string, f: Filters, r: Record)
    ensures multiset(Query(records, tenant, f.(offset := None, limit := None)))[r]
         == if Wanted(r, tenant, f) then multiset(records)[r] else 0
  {
    UnpagedIs(records, tenant, f);
    SortOrders(f.order, Where(records, Criteria(tenant, f)));
    WhereCounts(records, Criteria(tenant, f), r);
    CriteriaAreWanted(r, tenant, f);
  }

  function OfTenant(s: seq<Record>, tenant: string): seq<Record> {
    if s == [] then []
    else OfTenant(s[..|s| - 1], tenant) + (if s[|s| - 1].tenant == tenant then [s[|s| - 1]] else [])
  }

  /** The records of other tenants make no difference to any answer, paged or not. */
  lemma OtherTenantsDoNotMatter(records: seq<Record>, tenant: string, f: Filters)
    ensures Query(OfTenant(records, tenant), tenant, f) == Query(records, tenant, f)
  {
    WhereOfTenant(records, tenant, f);
  }

  lemma {:induction false} WhereOfTenant(s: seq<Record>, tenant: string, f: Filters)
    ensures Where(OfTenant(s, tenant), Criteria(tenant, f)) == Where(s, Criteria(tenant, f))
  {
    if s != [] {
      var n := |s| - 1;
      WhereOfTenant(s[..n], tenant, f);
      CriteriaAreWanted(s[n], tenant, f);
      WhereAppend(OfTenant(s[..n], tenant), s[n], Criteria(tenant, f));
      assert OfTenant(s[..n], tenant) + [] == OfTenant(s[..n], tenant);
    }
  }

  function Page(s: seq<Record>, offset: Option<int>, limit: Option<int>): seq<Record> {
    var rest := if offset.Some? then From(s, offset.value) else s;
    if limit.Some? then Upto(rest, limit.value) else rest
  }

  /** The ordered matches, before offset and limit. */
  function Answer(records: seq<Record>, tenant: string, f: Filters): seq<Record> {
    Sort(f.order, Where(records, Criteria(tenant, f)))
  }

  function Query(records: seq<Record>, tenant: string, f: Filters): seq<Record> {
    Page(Answer(records, tenant, f), f.offset, f.limit)
  }

  function Concat(page: nat -> seq<Record>, n: nat): seq<Record> {
    if n == 0 then [] else Concat(page, n - 1) + page(n - 1)
  }

  /** The first `n` pages of `size` records, one after the other. */
  function Pages(records: seq<Record>, tenant: string, f: Filters, size: nat, n: nat): seq<Record> {
    Concat((k: nat) => PageOf(records, tenant, f, size, k), n)
  }

  /** The offset of page `k`: `k` times the page size. */
  function PageStart(size: nat, k: nat): nat { if k == 0 then 0 else PageStart(size, k - 1) + size }

  function PageOf(records: seq<Record>, tenant: string, f: Filters, size: nat, k: nat): seq<Record> {
    Query(records, tenant, f.(offset := Some(PageStart(size, k)), limit := Some(size)))
  }

  lemma PageOfIs(records: seq<Record>, tenant: string, f: Filters, size: nat, k: nat)
    ensures PageOf(records, tenant, f, size, k) == Upto(From(Answer(records, tenant, f), PageStart(size, k)), size)
  {
    var g := f.(offset := Some(PageStart(size, k)), limit := Some(size));
    assert Answer(records, tenant, g) == Answer(records, tenant, f) by {
      assert Criteria(tenant, g) == Criteria(tenant, f);
    }
  }

  lemma UnpagedIs(records: seq<Record>, tenant: string, f: Filters)
    ensures Query(records, tenant, f.(offset := None, limit := None)) == Answer(records, tenant, f)
  {
    var g := f.(offset := None, limit := None);
    assert Answer(records, tenant, g) == Answer(records, tenant, f) by {
      assert Criteria(tenant, g) == Criteria(tenant, f);
    }
  }

  lemma {:induction false} ConcatIsPrefix(page: nat -> seq<Record>, all: seq<Record>, size: nat, n: nat)
    requires forall k: nat {:trigger page(k)} :: page(k) == Upto(From(all, PageStart(size, k)), size)
    ensures Concat(page, n) == Upto(all, PageStart(size, n))
  {
    if 0 < n {
      ConcatIsPrefix(page, all, size, n - 1);
      assert page(n - 1) == Upto(From(all, PageStart(size, n - 1)), size);
      NextPage(all, PageStart(size, n - 1), size);
    }
  }

  /** Paging loses nothing, repeats nothing and keeps the order: the pages up to any point are the
      beginning of the unpaged answer, and enough of them are all of it. */
  lemma PagesAreTheAnswer(records: seq<Record>, tenant: string, f: Filters, size: nat, n: nat)
    ensures var unpaged := Query(records, tenant, f.(offset := None, limit := None));
            && Pages(records, tenant, f, size, n) == Upto(unpaged, PageStart(size, n))
            && (|unpaged| <= PageStart(size, n) ==> Pages(records, tenant, f, size, n) == unpaged)
  {
    var page := (k: nat) => PageOf(records, tenant, f, size, k);
    forall k: nat ensures page(k) == Upto(From(Answer(records, tenant, f), PageStart(size, k)), size) {
      PageOfIs(records, tenant, f, size, k);
    }
    ConcatIsPrefix(page, Answer(records, tenant, f), size, n);
    UnpagedIs(records, tenant, f);
  }

  lemma NextPage(all: seq<Record>, start: nat, size: nat)
    ensures Upto(all, start) + Upto(From(all, start), size) == Upto(all, start + size)
  {
  }

  // ----- Sums -----

  function Total(s: seq<Record>): real {
    if s == [] then 0.0 else Total(s[..|s| - 1]) + s[|s| - 1].cost
  }

  function TotalOf(s: seq<Record>, capability: string): real {
    if s == [] then 0.0
    else TotalOf(s[..|s| - 1], capability) + (if s[|s| - 1].capability == capability then s[|s| - 1].cost else 0.0)
  }

  /** The costs of the records with this property. */
  function CostIf(s: seq<Record>, p: Record -> bool): real {
    if s == [] then 0.0 else CostIf(s[..|s| - 1], p) + (if p(s[|s| - 1]) then s[|s| - 1].cost else 0.0)
  }

  lemma {:induction false} WhereTotals(s: seq<Record>, tenant: string, agent: string, start: int, end: int, c: string)
    ensures var matching := Where(s, Criteria(tenant, InRange(agent, start, end)));
            && Total(matching) == CostIf(s, r => InSummary(r, tenant, agent, start, end))
            && TotalOf(matching, c) == CostIf(s, r => InSummary(r, tenant, agent, start, end) && r.capability == c)
  {
    if s != [] {
      var n := |s| - 1;
      WhereTotals(s[..n], tenant, agent, start, end, c);
      CriteriaAreWanted(s[n], tenant, InRange(agent, start, end));
      TotalAppend(Where(s[..n], Criteria(tenant, InRange(agent, start, end))), s[n]);
      var before := Where(s[..n], Criteria(tenant, InRange(agent, start, end)));
      assert before + [] == before;
    }
  }

  /** What a cost summary counts. */
  predicate InSummary(r: Record, tenant: string, agent: string, start: int, end: int) {
    r.tenant == tenant && r.agent == agent && start <= r.createdAt <= end
  }

  ghost function SumValues(m: map<string, real>): real {
    if m == map[] then 0.0 else
      var k :| k in m;
      m[k] + SumValues(m - {k})
  }

  lemma {:induction false} SumValuesAt(m: map<string, real>, k: string)
    requires k in m
    ensures SumValues(m) == m[k] + SumValues(m - {k})
    decreases m.Keys
  {
    var j :| j in m && SumValues(m) == m[j] + SumValues(m - {j});
    if j != k {
      SumValuesAt(m - {j}, k);
      SumValuesAt(m - {k}, j);
      assert m - {j} - {k} == m - {k} - {j};
    }
  }

  lemma SumValuesUpdate(m: map<string, real>, k: string, v: real)
    ensures SumValues(m[k := v]) == SumValues(m) - (if k in m then m[k] else 0.0) + v
  {
    SumValuesAt(m[k := v], k);
    assert m[k := v] - {k} == m - {k};
    if k in m { SumValuesAt(m, k); } else { assert m - {k} == m; }
  }

  datatype CostSummary = CostSummary(total: real, byAgent: map<string, real>, byCapability: map<string, real>)

  // ----- The ledger object -----

  class Ledger {
    const maxRecords: int
    var records: seq<Record>
    ghost var history: seq<Record>

    /** What is stored is what the submission history determines. */
    ghost predicate Valid()
      reads this
    {
      records == StoreAll(maxRecords, history)
    }

    constructor (maxRecords: int)
      ensures Valid() && this.maxRecords == maxRecords && history == []
    {
      this.maxRecords := maxRecords;
      records, history := [], [];
    }

    method RecordExecution(r: Record)
      requires Valid()
      modifies this
      ensures Valid() && history == old(history) + [r]
    {
      history := history + [r];
      records := records + [r];
      if |records| > maxRecords { records := From(records, -maxRecords); }
      assert history[..|history| - 1] == old(history);
    }

    /** The filters rebind the result list one criterion at a time. */
    method QueryRecords(tenant: string, f: Filters) returns (results: seq<Record>)
      ensures results == Query(records, tenant, f)
    {
      results := Where(records, [Tenant(tenant)]);
      ghost var cs := [Tenant(tenant)];
      results, cs := Narrow(results, cs, IfText(f.agent, x => Agent(x)));
      results, cs := Narrow(results, cs, IfText(f.capability, x => Capability(x)));
      results, cs := Narrow(results, cs, IfText(f.status, x => Status(x)));
      results, cs := Narrow(results, cs, IfText(f.mode, x => ExecutionMode(x)));
      results, cs := Narrow(results, cs, IfTime(f.start, t => NotBefore(t)));
      results, cs := Narrow(results, cs, IfTime(f.end, t => NotAfter(t)));
      results := Sort(f.order, results);
      if f.offset.Some? { results := From(results, f.offset.value); }
      if f.limit.Some? { results := Upto(results, f.limit.value); }
    }

    method Narrow(results: seq<Record>, ghost cs: seq<Criterion>, c: Option<Criterion>)
        returns (narrowed: seq<Record>, ghost more: seq<Criterion>)
      requires results == Where(records, cs)
      ensures more == AndIf(cs, c) && narrowed == Where(records, more)
    {
      narrowed, more := results, cs;
      if c.Some? {
        narrowed, more := Where(results, [c.value]), cs + [c.value];
        WhereTwice(records, cs, c.value);
      }
    }

    /** The total is the sum of the matching query and of the per-capability totals. */
    method GetCostSummary(tenant: string, agent: string, start: int, end: int) returns (summary: CostSummary)
      ensures var matching := Query(records, tenant, InRange(agent, start, end));
              && summary.total == Total(matching) == SumValues(summary.byCapability)
              && summary.byAgent == map[agent := summary.total]
              && TotalsOf(summary.byCapability, matching)
      ensures summary.total == CostIf(records, r => InSummary(r, tenant, agent, start, end))
      ensures forall c :: Entry(summary.byCapability, c)
                       == CostIf(records, r => InSummary(r, tenant, agent, start, end) && r.capability == c)
    {
      var matching := Where(records, Criteria(tenant, InRange(agent, start, end)));
      UnorderedSort(matching);
      var total := SumCosts(matching);
      var byCapability := SumByCapability(matching);
      summary := CostSummary(total, map[agent := total], byCapability);
      forall c ensures Entry(byCapability, c)
                    == CostIf(records, r => InSummary(r, tenant, agent, start, end) && r.capability == c)
      {
        WhereTotals(records, tenant, agent, start, end, c);
      }
      WhereTotals(records, tenant, agent, start, end, "");
    }
  }

  method SumCosts(s: seq<Record>) returns (total: real)
    ensures total == Total(s)
  {
    total := 0.0;
    for i := 0 to |s|
      invariant total == Total(s[..i])
    {
      assert s[..i + 1][..i] == s[..i];
      total := total + s[i].cost;
    }
    assert s[..|s|] == s;
  }

  function InRange(agent: string, start: int, end: int): Filters {
    Filters(Some(agent), None, None, None, Some(start), Some(end), Unordered, None, None)
  }

  predicate Occurs(s: seq<Record>, c: string) {
    exists i :: 0 <= i < |s| && s[i].capability == c
  }

  lemma OccursAppend(s: seq<Record>, r: Record, c: string)
    ensures Occurs(s + [r], c) <==> Occurs(s, c) || c == r.capability
  {
    if Occurs(s, c) {
      var i :| 0 <= i < |s| && s[i].capability == c;
      assert (s + [r])[i].capability == c;
    }
    assert (s + [r])[|s|] == r;
  }

  /** `totals` holds the cost of each capability met in `s`. */
  ghost predicate TotalsOf(totals: map<string, real>, s: seq<Record>) {
    && SumValues(totals) == Total(s)
    && (forall c :: c in totals <==> Occurs(s, c))
    && (forall c :: Entry(totals, c) == TotalOf(s, c))
  }

  function Entry(totals: map<string, real>, c: string): real { if c in totals then totals[c] else 0.0 }

  lemma AddToTotals(totals: map<string, real>, s: seq<Record>, r: Record)
    requires TotalsOf(totals, s)
    ensures TotalsOf(totals[r.capability := Entry(totals, r.capability) + r.cost], s + [r])
  {
    var k := r.capability;
    var after := totals[k := Entry(totals, k) + r.cost];
    SumValuesUpdate(totals, k, Entry(totals, k) + r.cost);
    TotalAppend(s, r);
    forall c ensures c in after <==> Occurs(s + [r], c) { OccursAppend(s, r, c); }
    forall c ensures Entry(after, c) == TotalOf(s + [r], c) { assert Entry(totals, c) == TotalOf(s, c); }
  }

  lemma TotalAppend(s: seq<Record>, r: Record)
    ensures Total(s + [r]) == Total(s) + r.cost
    ensures forall c :: TotalOf(s + [r], c) == TotalOf(s, c) + (if r.capability == c then r.cost else 0.0)
  {
    assert (s + [r])[..|s|] == s;
  }

  method SumByCapability(matching: seq<Record>) returns (totals: map<string, real>)
    ensures TotalsOf(totals, matching)
  {
    totals := map[];
    for n := 0 to |matching|
      invariant TotalsOf(totals, matching[..n])
    {
      var r := matching[n];
      assert matching[..n + 1] == matching[..n] + [r];
      AddToTotals(totals, matching[..n], r);
      totals := totals[r.capability := Entry(totals, r.capability) + r.cost];
    }
    assert matching[..|matching|] == matching;
  }

  lemma {:induction false} UnorderedSort(s: seq<Record>)
    ensures Sort(Unordered, s) == s
  {
    if s != [] {
      UnorderedSort(s[..|s| - 1]);
      assert s == s[..|s| - 1] + [s[|s| - 1]];
    }
  }
}

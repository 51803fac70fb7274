/** The receipt store of gateway/app/receipt.py: an insertion-ordered cache beside an indexed table. */
module Receipts {
  import opened Base
  import opened Sorting

  datatype Pricing = Pricing(payout: int, refund: int, rule: string)

  /**
   * `validation["overall_pass"]`: missing, a flag (numbers 0 and 1 compare equal to flags in Python),
   * or some other value, which equals neither flag but is truthy or not.
   */
  datatype Verdict = Missing | Flag(b: bool) | OtherValue(truthy: bool)

  datatype Receipt = Receipt(
    id: string,
    buyer: string,
    seller: string,
    latencyMs: int,
    verdict: Verdict,
    pricing: Option<Pricing>,
    rest: string)

  /** The indexed columns of a row. */
  datatype Columns = Columns(
    buyer: string,
    seller: string,
    payout: int,
    refund: int,
    latencyMs: int,
    validationPass: int,
    rule: string)

  /** A table row; the serialised receipt is kept as the receipt it reads back to. */
  datatype Row = Row(data: Receipt, createdAt: real, columns: Columns)

  /** Search filters; an empty string filters nothing, like a missing one. */
  datatype Filters = Filters(
    buyer: string,
    seller: string,
    minPayout: Option<int>,
    maxLatencyMs: Option<int>,
    validationPass: Option<bool>,
    rule: string)

  /** `_extract_indexed_fields`. */
  function Extract(r: Receipt): Columns {
    Columns(
      r.buyer, r.seller,
      if r.pricing.Some? then r.pricing.value.payout else 0,
      if r.pricing.Some? then r.pricing.value.refund else 0,
      r.latencyMs,
      match r.verdict case Missing => 0 case Flag(b) => (if b then 1 else 0) case OtherValue(t) => (if t then 1 else 0),
      if r.pricing.Some? then r.pricing.value.rule else "")
  }

  /** The columns repeat the receipt: what it lacks is 0 or empty, and only a truthy verdict is 1. */
  ghost predicate ColumnsMatch(c: Columns, r: Receipt) {
    && c.buyer == r.buyer && c.seller == r.seller && c.latencyMs == r.latencyMs
    && (if r.pricing.Some? then
          c.payout == r.pricing.value.payout && c.refund == r.pricing.value.refund && c.rule == r.pricing.value.rule
        else c.payout == c.refund == 0 && c.rule == "")
    && (c.validationPass == 1 || c.validationPass == 0)
    && (c.validationPass == 1 <==> r.verdict == Flag(true) || r.verdict == OtherValue(true))
  }

  lemma ColumnsDetermined(c: Columns, r: Receipt)
    ensures ColumnsMatch(c, r) <==> c == Extract(r)
  {
  }

  // ----- what SQLite can hold

  /** Integers of 64 bits; binding any other raises. */
  predicate Fits64(i: int) {
    -0x8000_0000_0000_0000 <= i < 0x8000_0000_0000_0000
  }

  lemma SixtyFourBits()
    ensures Fits64(9_223_372_036_854_775_807) && !Fits64(9_223_372_036_854_775_808)
    ensures Fits64(-9_223_372_036_854_775_808) && !Fits64(-9_223_372_036_854_775_809)
  {
  }

  /** The row of this receipt can be written; otherwise `save` raises, with the receipt already cached. */
  predicate Storable(r: Receipt) {
    var c := Extract(r);
    Fits64(c.payout) && Fits64(c.refund) && Fits64(c.latencyMs)
  }

  /** The parameters of the query can be bound. */
  predicate Bindable(f: Filters) {
    (f.minPayout.Some? ==> Fits64(f.minPayout.value)) && (f.maxLatencyMs.Some? ==> Fits64(f.maxLatencyMs.value))
  }

  // ----- the two searches, on one receipt

  /** The WHERE clause. */
  predicate RowMatches(c: Columns, f: Filters) {
    && (f.buyer != "" ==> c.buyer == f.buyer)
    && (f.seller != "" ==> c.seller == f.seller)
    && (f.minPayout.Some? ==> c.payout >= f.minPayout.value)
    && (f.maxLatencyMs.Some? ==> c.latencyMs <= f.maxLatencyMs.value)
    && (f.validationPass.Some? ==> c.validationPass == if f.validationPass.value then 1 else 0)
    && (f.rule != "" ==> c.rule == f.rule)
  }

  /** The chain of comprehensions. */
  predicate MemoryMatches(r: Receipt, f: Filters) {
    && (f.buyer != "" ==> r.buyer == f.buyer)
    && (f.seller != "" ==> r.seller == f.seller)
    && (f.minPayout.Some? ==> r.pricing.Some? && r.pricing.value.payout >= f.minPayout.value)
    && (f.maxLatencyMs.Some? ==> r.latencyMs <= f.maxLatencyMs.value)
    && (f.validationPass.Some? ==> r.verdict == Flag(f.validationPass.value))
    && (f.rule != "" ==> r.pricing.Some? && r.pricing.value.rule == f.rule)
  }

  const NO_FILTERS := Filters("", "", None, None, None, "")

  /** Filters that tell a receipt's row from the receipt, if it lacks pricing or a boolean verdict. */
  function TellingFilters(r: Receipt): Filters {
    if r.pricing.None? then NO_FILTERS.(minPayout := Some(0))
    else NO_FILTERS.(validationPass := Some(Extract(r).validationPass == 1))
  }

  /** The two searches agree on a receipt, for all filters, exactly when it has pricing and a boolean verdict. */
  lemma SearchesAgreeIff(r: Receipt)
    ensures (forall f :: RowMatches(Extract(r), f) == MemoryMatches(r, f)) <==> r.pricing.Some? && r.verdict.Flag?
    ensures !(r.pricing.Some? && r.verdict.Flag?) ==>
              RowMatches(Extract(r), TellingFilters(r)) != MemoryMatches(r, TellingFilters(r))
  {
    if !(r.pricing.Some? && r.verdict.Flag?) {
      assert RowMatches(Extract(r), TellingFilters(r)) != MemoryMatches(r, TellingFilters(r));
    }
  }

  // ----- the stores

  /** Assignment into an insertion-ordered dictionary: in place, or at the end. */
  function Put(cache: seq<Receipt>, r: Receipt): seq<Receipt> {
    if cache == [] then [r]
    else if cache[0].id == r.id then [r] + cache[1..]
    else [cache[0]] + Put(cache[1..], r)
  }

  function Lookup(cache: seq<Receipt>, id: string): Option<Receipt> {
    if cache == [] then None else if cache[0].id == id then Some(cache[0]) else Lookup(cache[1..], id)
  }

  function Without(rows: seq<Row>, id: string): seq<Row> {
    Filter(rows, (row: Row) => row.data.id != id)
  }

  /** INSERT OR REPLACE: the old row goes, the new one comes last. */
  function Replace(rows: seq<Row>, r: Receipt, now: real): seq<Row> {
    Without(rows, r.id) + [Row(r, now, Extract(r))]
  }

  function SelectMemory(cache: seq<Receipt>, f: Filters): seq<Receipt> {
    Filter(cache, (r: Receipt) => MemoryMatches(r, f))
  }

  predicate NewerFirst(a: Row, b: Row) {
    a.createdAt >= b.createdAt
  }

  predicate OlderFirst(a: Row, b: Row) {
    a.createdAt <= b.createdAt
  }

  function MatchingRows(rows: seq<Row>, f: Filters): seq<Row> {
    Filter(rows, (row: Row) => RowMatches(row.columns, f))
  }

  function Data(rows: seq<Row>): seq<Receipt> {
    if rows == [] then [] else [rows[0].data] + Data(rows[1..])
  }

  function OrderedRows(rows: seq<Row>, f: Filters): seq<Row> {
    Sort(MatchingRows(rows, f), NewerFirst)
  }

  function SelectRows(rows: seq<Row>, f: Filters): seq<Receipt> {
    Data(OrderedRows(rows, f))
  }

  /** Reading the table into an empty cache, oldest row first. */
  function Load(cache: seq<Receipt>, rows: seq<Row>): seq<Receipt>
    decreases |rows|
  {
    if rows == [] then cache else Load(Put(cache, rows[0].data), rows[1..])
  }

  function Reopened(rows: seq<Row>): seq<Receipt> {
    Load([], Sort(rows, OlderFirst))
  }

  /** Python's `s[offset : offset + limit]`, negative bounds counting from the end. */
  function Index(i: int, n: nat): nat {
    Max(0, Min(n, if i < 0 then i + n else i))
  }

  function Page<T>(s: seq<T>, offset: int, limit: int): seq<T> {
    var lo, hi := Index(offset, |s|), Index(offset + limit, |s|);
    if lo <= hi then s[lo..hi] else []
  }

  /** LIMIT and OFFSET: a negative limit is none, a negative offset is 0. */
  function SqlPage<T>(s: seq<T>, offset: int, limit: int): seq<T> {
    var lo := Min(|s|, Max(0, offset));
    if limit < 0 then s[lo..] else s[lo..Min(|s|, lo + limit)]
  }

  // ----- building the WHERE clause

  datatype Condition =
    | BuyerIs(buyer: string)
    | SellerIs(seller: string)
    | PayoutAtLeast(payout: int)
    | LatencyAtMost(latencyMs: int)
    | ValidationIs(flag: int)
    | RuleIs(rule: string)

  predicate Holds(c: Columns, condition: Condition) {
    match condition
    case BuyerIs(buyer) => c.buyer == buyer
    case SellerIs(seller) => c.seller == seller
    case PayoutAtLeast(payout) => c.payout >= payout
    case LatencyAtMost(latencyMs) => c.latencyMs <= latencyMs
    case ValidationIs(flag) => c.validationPass == flag
    case RuleIs(rule) => c.rule == rule
  }

  predicate AllHold(c: Columns, conditions: seq<Condition>) {
    forall i :: 0 <= i < |conditions| ==> Holds(c, conditions[i])
  }

  lemma OneMore(conditions: seq<Condition>, condition: Condition)
    ensures forall c :: AllHold(c, conditions + [condition]) <==> AllHold(c, conditions) && Holds(c, condition)
  {
    forall c ensures AllHold(c, conditions + [condition]) <==> AllHold(c, conditions) && Holds(c, condition) {
      var more := conditions + [condition];
      assert more[|conditions|] == condition && forall i :: 0 <= i < |conditions| ==> more[i] == conditions[i];
    }
  }

  /** One more comprehension narrows the result from one set of filters to the next. */
  lemma Narrow(cache: seq<Receipt>, f: Filters, keep: Receipt -> bool, g: Filters)
    requires forall r :: MemoryMatches(r, g) <==> MemoryMatches(r, f) && keep(r)
    ensures Filter(SelectMemory(cache, f), keep) == SelectMemory(cache, g)
  {
    FilterFilter(cache, (r: Receipt) => MemoryMatches(r, f), keep, (r: Receipt) => MemoryMatches(r, g));
  }

  lemma {:induction false} SameFilter<T(!new)>(s: seq<T>, a: T -> bool, b: T -> bool)
    requires forall x :: a(x) <==> b(x)
    ensures Filter(s, a) == Filter(s, b)
  {
    if s != [] {
      SameFilter(s[1..], a, b);
    }
  }

  lemma {:induction false} SelectAll(cache: seq<Receipt>)
    ensures SelectMemory(cache, NO_FILTERS) == cache
  {
    if cache != [] {
      SelectAll(cache[1..]);
      assert MemoryMatches(cache[0], NO_FILTERS);
    }
  }

  class ReceiptStore {
    var cache: seq<Receipt>
    const persistent: bool
    var rows: seq<Row>

    constructor Open(persistent: bool, existing: seq<Row>)
      ensures this.persistent == persistent
      ensures rows == if persistent then existing else []
      ensures cache == if persistent then Reopened(existing) else []
    {
      this.persistent := persistent;
      rows := if persistent then existing else [];
      cache := [];
      new;
      if persistent {
        var ordered := Sort(existing, OlderFirst);
        for i := 0 to |ordered|
          invariant Load(cache, ordered[i..]) == Reopened(existing)
          modifies `cache
        {
          assert ordered[i..][1..] == ordered[i + 1..];
          cache := Put(cache, ordered[i].data);
        }
      }
    }

    /** The cache is written first; a table write that raises leaves it so. */
    method Save(r: Receipt, now: real) returns (raised: bool)
      modifies this
      ensures raised <==> persistent && !Storable(r)
      ensures cache == Put(old(cache), r)
      ensures rows == if persistent && !raised then Replace(old(rows), r, now) else old(rows)
    {
      cache := Put(cache, r);
      if persistent {
        if !Storable(r) {
          return true;
        }
        rows := Replace(rows, r, now);
      }
      raised := false;
    }

    method Get(id: string) returns (r: Option<Receipt>)
      ensures r.None? ==> forall x :: x in cache ==> x.id != id
      ensures r.Some? ==> exists i :: 0 <= i < |cache| && cache[i] == r.value && r.value.id == id
                                      && forall j :: 0 <= j < i ==> cache[j].id != id
    {
      LookupMeaning(cache, id);
      r := Lookup(cache, id);
    }

    /** The clause names exactly the given filters; `?` parameters are carried by the conditions. */
    method BuildWhere(f: Filters) returns (conditions: seq<Condition>)
      ensures forall c :: AllHold(c, conditions) <==> RowMatches(c, f)
    {
      conditions := [];
      if f.buyer != "" {
        OneMore(conditions, BuyerIs(f.buyer));
        conditions := conditions + [BuyerIs(f.buyer)];
      }
      if f.seller != "" {
        OneMore(conditions, SellerIs(f.seller));
        conditions := conditions + [SellerIs(f.seller)];
      }
      if f.minPayout.Some? {
        OneMore(conditions, PayoutAtLeast(f.minPayout.value));
        conditions := conditions + [PayoutAtLeast(f.minPayout.value)];
      }
      if f.maxLatencyMs.Some? {
        OneMore(conditions, LatencyAtMost(f.maxLatencyMs.value));
        conditions := conditions + [LatencyAtMost(f.maxLatencyMs.value)];
      }
      if f.validationPass.Some? {
        OneMore(conditions, ValidationIs(if f.validationPass.value then 1 else 0));
        conditions := conditions + [ValidationIs(if f.validationPass.value then 1 else 0)];
      }
      if f.rule != "" {
        OneMore(conditions, RuleIs(f.rule));
        conditions := conditions + [RuleIs(f.rule)];
      }
    }

    /** Nothing where binding a parameter raises. */
    method SearchSqlite(f: Filters, limit: int, offset: int) returns (answer: Option<seq<Receipt>>)
      ensures answer.Some? <==> Bindable(f) && Fits64(limit) && Fits64(offset)
      ensures answer.Some? ==> answer.value == SqlPage(SelectRows(rows, f), offset, limit)
    {
      var conditions := BuildWhere(f);
      if !Bindable(f) || !Fits64(limit) || !Fits64(offset) {
        return None;
      }
      var matching := Filter(rows, (row: Row) => AllHold(row.columns, conditions));
      SameFilter(rows, (row: Row) => AllHold(row.columns, conditions), (row: Row) => RowMatches(row.columns, f));
      var page := SqlPage(Sort(matching, NewerFirst), offset, limit);
      var found: seq<Receipt> := [];
      for i := 0 to |page|
        invariant found == Data(page[..i])
      {
        DataSnoc(page[..i], page[i]);
        assert page[..i] + [page[i]] == page[..i + 1];
        found := found + [page[i].data];
      }
      assert page[..|page|] == page;
      DataOfPage(OrderedRows(rows, f), offset, limit);
      answer := Some(found);
    }

    method SearchMemory(f: Filters, limit: int, offset: int) returns (found: seq<Receipt>)
      ensures found == Page(SelectMemory(cache, f), offset, limit)
    {
      var results := cache;
      SelectAll(cache);
      ghost var g := NO_FILTERS;
      if f.buyer != "" {
        results := Filter(results, (r: Receipt) => r.buyer == f.buyer);
        Narrow(cache, g, (r: Receipt) => r.buyer == f.buyer, g.(buyer := f.buyer));
      }
      g := g.(buyer := f.buyer);
      assert results == SelectMemory(cache, g);
      if f.seller != "" {
        results := Filter(results, (r: Receipt) => r.seller == f.seller);
        Narrow(cache, g, (r: Receipt) => r.seller == f.seller, g.(seller := f.seller));
      }
      g := g.(seller := f.seller);
      assert results == SelectMemory(cache, g);
      if f.minPayout.Some? {
        results := Filter(results, (r: Receipt) => r.pricing.Some? && r.pricing.value.payout >= f.minPayout.value);
        Narrow(cache, g, (r: Receipt) => r.pricing.Some? && r.pricing.value.payout >= f.minPayout.value,
               g.(minPayout := f.minPayout));
      }
      g := g.(minPayout := f.minPayout);
      assert results == SelectMemory(cache, g);
      if f.maxLatencyMs.Some? {
        results := Filter(results, (r: Receipt) => r.latencyMs <= f.maxLatencyMs.value);
        Narrow(cache, g, (r: Receipt) => r.latencyMs <= f.maxLatencyMs.value, g.(maxLatencyMs := f.maxLatencyMs));
      }
      g := g.(maxLatencyMs := f.maxLatencyMs);
      assert results == SelectMemory(cache, g);
      if f.validationPass.Some? {
        results := Filter(results, (r: Receipt) => r.verdict == Flag(f.validationPass.value));
        Narrow(cache, g, (r: Receipt) => r.verdict == Flag(f.validationPass.value),
               g.(validationPass := f.validationPass));
      }
      g := g.(validationPass := f.validationPass);
      assert results == SelectMemory(cache, g);
      if f.rule != "" {
        results := Filter(results, (r: Receipt) => r.pricing.Some? && r.pricing.value.rule == f.rule);
        Narrow(cache, g, (r: Receipt) => r.pricing.Some? && r.pricing.value.rule == f.rule, g.(rule := f.rule));
      }
      g := g.(rule := f.rule);
      assert g == f;
      found := Page(results, offset, limit);
    }

    method Search(f: Filters, limit: int, offset: int) returns (answer: Option<seq<Receipt>>)
      ensures answer.None? <==> persistent && !(Bindable(f) && Fits64(limit) && Fits64(offset))
      ensures answer.Some? ==>
                answer.value == if persistent then SqlPage(SelectRows(rows, f), offset, limit)
                                else Page(SelectMemory(cache, f), offset, limit)
    {
      if persistent {
        answer := SearchSqlite(f, limit, offset);
      } else {
        var found := SearchMemory(f, limit, offset);
        answer := Some(found);
      }
    }
  }

  lemma {:induction false} LookupMeaning(cache: seq<Receipt>, id: string)
    ensures var r := Lookup(cache, id);
            && (r.None? ==> forall x :: x in cache ==> x.id != id)
            && (r.Some? ==> exists i :: 0 <= i < |cache| && cache[i] == r.value && r.value.id == id
                                        && forall j :: 0 <= j < i ==> cache[j].id != id)
  {
    if cache != [] && cache[0].id != id {
      LookupMeaning(cache[1..], id);
      var r := Lookup(cache[1..], id);
      if r.Some? {
        var i :| 0 <= i < |cache[1..]| && cache[1..][i] == r.value && r.value.id == id
          && forall j :: 0 <= j < i ==> cache[1..][j].id != id;
        assert cache[i + 1] == r.value && forall j :: 0 < j < i + 1 ==> cache[j] == cache[1..][j - 1];
      }
    }
  }

  lemma {:induction false} DataAt(rows: seq<Row>)
    ensures |Data(rows)| == |rows| && forall i :: 0 <= i < |rows| ==> Data(rows)[i] == rows[i].data
  {
    if rows != [] {
      DataAt(rows[1..]);
    }
  }

  lemma DataSnoc(rows: seq<Row>, row: Row)
    ensures Data(rows + [row]) == Data(rows) + [row.data]
  {
    DataAt(rows);
    DataAt(rows + [row]);
  }

  lemma DataOfPage(rows: seq<Row>, offset: int, limit: int)
    ensures Data(SqlPage(rows, offset, limit)) == SqlPage(Data(rows), offset, limit)
  {
    DataAt(rows);
    DataAt(SqlPage(rows, offset, limit));
  }

  /** The indexed result is the matching rows' receipts, newest row first. */
  lemma NewestFirst(rows: seq<Row>, f: Filters)
    ensures var s := OrderedRows(rows, f); forall i, j :: 0 <= i < j < |s| ==> s[i].createdAt >= s[j].createdAt
    ensures multiset(OrderedRows(rows, f)) == multiset(MatchingRows(rows, f))
    ensures |SelectRows(rows, f)| == |OrderedRows(rows, f)|
    ensures forall i :: 0 <= i < |OrderedRows(rows, f)| ==> SelectRows(rows, f)[i] == OrderedRows(rows, f)[i].data
  {
    SortSorts(MatchingRows(rows, f), NewerFirst);
    SortPermutes(MatchingRows(rows, f), NewerFirst);
    DataAt(OrderedRows(rows, f));
  }

  // ----- runs of saves and reopenings

  datatype StoreOp = SaveOp(receipt: Receipt, now: real) | Reopen

  datatype Contents = Contents(cache: seq<Receipt>, rows: seq<Row>)

  /** A persistent store after these operations, from an empty database. */
  function After(ops: seq<StoreOp>): Contents {
    if ops == [] then Contents([], [])
    else
      var c := After(ops[..|ops| - 1]);
      match ops[|ops| - 1]
      case SaveOp(r, now) => Contents(Put(c.cache, r), if Storable(r) then Replace(c.rows, r, now) else c.rows)
      case Reopen => Contents(Reopened(c.rows), c.rows)
  }

  ghost predicate DistinctIds(rs: seq<Receipt>) {
    forall i, j :: 0 <= i < j < |rs| ==> rs[i].id != rs[j].id
  }

  /** One row per cached receipt, holding it and its columns; ids unique on both sides. */
  ghost predicate InStep(c: Contents) {
    Paired(c) && forall r :: r in c.cache <==> r in Data(c.rows)
  }

  /**
   * What every operation keeps: ids unique on both sides, columns those of their receipts, rows for the
   * storable cached receipts, and under the id of every row either its receipt or one that failed.
   */
  ghost predicate Paired(c: Contents) {
    && DistinctIds(c.cache)
    && DistinctIds(Data(c.rows))
    && (forall row :: row in c.rows ==> ColumnsMatch(row.columns, row.data))
    && (forall r :: r in c.cache && Storable(r) ==> r in Data(c.rows))
    && (forall r :: r in Data(c.rows) ==> Storable(r))
    && (forall r :: r in Data(c.rows) && r !in c.cache ==> Superseded(c.cache, r))
  }

  /** A receipt that could not be stored is cached under this one's id. */
  ghost predicate Superseded(cache: seq<Receipt>, r: Receipt) {
    exists x :: x in cache && x.id == r.id && !Storable(x)
  }

  lemma {:induction false} PutKeeps(cache: seq<Receipt>, r: Receipt)
    requires DistinctIds(cache)
    ensures DistinctIds(Put(cache, r))
    ensures forall x :: x in Put(cache, r) <==> x == r || (x in cache && x.id != r.id)
  {
    if cache != [] {
      if cache[0].id == r.id {
        assert forall i :: 0 < i < |cache| ==> cache[i].id != cache[0].id;
      } else {
        PutKeeps(cache[1..], r);
        assert cache == [cache[0]] + cache[1..];
        assert forall x :: x in cache[1..] ==> x.id != cache[0].id;
      }
    }
  }

  lemma {:induction false} WithoutDistinct(rows: seq<Row>, id: string)
    requires DistinctIds(Data(rows))
    ensures DistinctIds(Data(Without(rows, id)))
  {
    if rows != [] {
      var rest := Without(rows[1..], id);
      DistinctTail(Data(rows));
      assert Data(rows)[1..] == Data(rows[1..]);
      WithoutDistinct(rows[1..], id);
      DataMembers(rows[1..]);
      DataMembers(rest);
      DistinctTail([rows[0].data] + Data(rest));
      assert ([rows[0].data] + Data(rest))[1..] == Data(rest);
    }
  }

  lemma DataMembers(rows: seq<Row>)
    ensures forall r :: r in Data(rows) <==> exists row :: row in rows && row.data == r
  {
    DataAt(rows);
    forall r ensures r in Data(rows) <==> exists row :: row in rows && row.data == r {
      if r in Data(rows) {
        var i :| 0 <= i < |Data(rows)| && Data(rows)[i] == r;
        assert rows[i] in rows;
      }
      if row :| row in rows && row.data == r {
        var i :| 0 <= i < |rows| && rows[i] == row;
        assert Data(rows)[i] == r;
      }
    }
  }

  lemma ReplaceKeeps(rows: seq<Row>, r: Receipt, now: real)
    requires DistinctIds(Data(rows))
    ensures DistinctIds(Data(Replace(rows, r, now)))
    ensures forall x :: x in Data(Replace(rows, r, now)) <==> x == r || (x in Data(rows) && x.id != r.id)
  {
    WithoutDistinct(rows, r.id);
    var kept, all := Without(rows, r.id), Replace(rows, r, now);
    DataAt(kept);
    DataAt(all);
    DataMembers(rows);
    DataMembers(kept);
    DataMembers(all);
    assert Data(all) == Data(kept) + [r];
    forall i | 0 <= i < |kept| ensures Data(kept)[i].id != r.id {
      assert kept[i] in kept;
    }
  }

  lemma PairedSave(c: Contents, r: Receipt, now: real)
    requires Paired(c) && Storable(r)
    ensures Paired(Contents(Put(c.cache, r), Replace(c.rows, r, now)))
  {
    var c' := Contents(Put(c.cache, r), Replace(c.rows, r, now));
    PutKeeps(c.cache, r);
    ReplaceKeeps(c.rows, r, now);
    forall x | x in Data(c'.rows) && x !in c'.cache ensures Superseded(c'.cache, x) {
      assert x in Data(c.rows) && x.id != r.id && x !in c.cache;
      var y :| y in c.cache && y.id == x.id && !Storable(y);
      assert y in c'.cache;
    }
  }

  lemma PairedFailedSave(c: Contents, r: Receipt)
    requires Paired(c) && !Storable(r)
    ensures Paired(Contents(Put(c.cache, r), c.rows))
  {
    var c' := Contents(Put(c.cache, r), c.rows);
    PutKeeps(c.cache, r);
    forall x | x in Data(c'.rows) && x !in c'.cache ensures Superseded(c'.cache, x) {
      assert r in c'.cache;
      if x.id != r.id {
        assert x !in c.cache;
        var y :| y in c.cache && y.id == x.id && !Storable(y);
        assert y in c'.cache;
      }
    }
  }

  lemma {:induction false} AlwaysPaired(ops: seq<StoreOp>)
    ensures Paired(After(ops))
  {
    if ops != [] {
      var c := After(ops[..|ops| - 1]);
      AlwaysPaired(ops[..|ops| - 1]);
      match ops[|ops| - 1] {
        case SaveOp(r, now) =>
          if Storable(r) {
            PairedSave(c, r, now);
          } else {
            PairedFailedSave(c, r);
          }
        case Reopen =>
          ReopenedRows(c.rows);
      }
    }
  }

  /** A save that could not be stored, neither reopened since nor overwritten by a save under its id. */
  ghost predicate Dangling(ops: seq<StoreOp>, k: nat) {
    && k < |ops| && ops[k].SaveOp? && !Storable(ops[k].receipt)
    && forall j :: k < j < |ops| ==> ops[j].SaveOp? && ops[j].receipt.id != ops[k].receipt.id
  }

  lemma {:induction false} DanglingIsCached(ops: seq<StoreOp>, k: nat)
    requires Dangling(ops, k)
    ensures ops[k].receipt in After(ops).cache
  {
    var front, op := ops[..|ops| - 1], ops[|ops| - 1];
    AlwaysPaired(front);
    PutKeeps(After(front).cache, op.receipt);
    if k < |ops| - 1 {
      assert Dangling(front, k);
      DanglingIsCached(front, k);
    }
  }

  lemma DanglingSnoc(ops: seq<StoreOp>, k: nat)
    requires ops != [] && Dangling(ops[..|ops| - 1], k)
    requires ops[|ops| - 1].SaveOp? && ops[|ops| - 1].receipt.id != ops[k].receipt.id
    ensures Dangling(ops, k)
  {
    var front := ops[..|ops| - 1];
    assert forall j :: 0 <= j < |front| ==> front[j] == ops[j];
  }

  /** One operation: an unstorable receipt in the cache is the one just saved, or was there and has another id. */
  lemma FailureCachedBy(c: Contents, op: StoreOp, r: Receipt)
    requires Paired(c) && !Storable(r)
    ensures op.SaveOp? && r in Put(c.cache, op.receipt) ==> r == op.receipt || (r in c.cache && r.id != op.receipt.id)
    ensures op.Reopen? ==> r !in Reopened(c.rows)
  {
    if op.SaveOp? {
      PutKeeps(c.cache, op.receipt);
    } else {
      ReopenedRows(c.rows);
    }
  }

  lemma {:induction false} CachedFailureDangles(ops: seq<StoreOp>, r: Receipt) returns (k: nat)
    requires r in After(ops).cache && !Storable(r)
    ensures Dangling(ops, k) && ops[k].receipt == r
  {
    var front, op := ops[..|ops| - 1], ops[|ops| - 1];
    AlwaysPaired(front);
    FailureCachedBy(After(front), op, r);
    if op.receipt == r {
      k := |ops| - 1;
    } else {
      k := CachedFailureDangles(front, r);
      DanglingSnoc(ops, k);
    }
  }

  /**
   * After any saves, overwrites and reopenings, cache and table hold the same receipts, each id once,
   * exactly unless some save whose row could not be written is still dangling.
   */
  lemma InStepIff(ops: seq<StoreOp>)
    ensures InStep(After(ops)) <==> !exists k: nat :: Dangling(ops, k)
  {
    var c := After(ops);
    AlwaysPaired(ops);
    if k: nat :| Dangling(ops, k) {
      DanglingIsCached(ops, k);
    } else {
      forall r | r in c.cache ensures Storable(r) {
        if !Storable(r) {
          var k := CachedFailureDangles(ops, r);
        }
      }
    }
  }

  /** A payout of 2 to the 63 is cached and not stored. */
  lemma WidePayoutDangles(r: Receipt)
    requires r.pricing.Some? && r.pricing.value.payout == 0x8000_0000_0000_0000
    ensures !InStep(After([SaveOp(r, 0.0)]))
  {
    assert Dangling([SaveOp(r, 0.0)], 0);
    InStepIff([SaveOp(r, 0.0)]);
  }

  predicate Searchable(r: Receipt) {
    Storable(r) && r.pricing.Some? && r.verdict.Flag?
  }

  ghost predicate SameResults(c: Contents, f: Filters) {
    forall r :: r in SelectRows(c.rows, f) <==> r in SelectMemory(c.cache, f)
  }

  /** The table finds a stored receipt exactly when the WHERE clause holds of its columns. */
  lemma FoundInRows(c: Contents, f: Filters, r: Receipt)
    requires Paired(c)
    ensures r in SelectRows(c.rows, f) <==> r in Data(c.rows) && RowMatches(Extract(r), f)
  {
    SortKeepsElements(MatchingRows(c.rows, f), NewerFirst);
    DataMembers(OrderedRows(c.rows, f));
    DataMembers(c.rows);
  }

  /**
   * After any operations, the indexed search and the in-memory search find the same receipts for all
   * filters the query can bind, exactly when every cached receipt could be stored and has pricing and a
   * boolean verdict.
   */
  lemma SearchesAgree(ops: seq<StoreOp>)
    ensures (forall f :: Bindable(f) ==> SameResults(After(ops), f))
       <==> forall r :: r in After(ops).cache ==> Searchable(r)
  {
    var c := After(ops);
    AlwaysPaired(ops);
    if forall r :: r in c.cache ==> Searchable(r) {
      forall f, r ensures r in SelectRows(c.rows, f) <==> r in SelectMemory(c.cache, f) {
        FoundInRows(c, f, r);
        if r in c.cache {
          SearchesAgreeIff(r);
        }
      }
    } else {
      var r :| r in c.cache && !Searchable(r);
      var f := if Storable(r) then TellingFilters(r) else NO_FILTERS;
      SearchesAgreeIff(r);
      FoundInRows(c, f, r);
      assert Bindable(f) && !SameResults(c, f);
    }
  }

  /** In particular when everything saved was searchable. */
  lemma SearchableSavesAgree(ops: seq<StoreOp>)
    requires forall op :: op in ops && op.SaveOp? ==> Searchable(op.receipt)
    ensures InStep(After(ops)) && forall f :: SameResults(After(ops), f)
  {
    SavedOnly(ops);
    InStepIff(ops);
    AlwaysPaired(ops);
    var c := After(ops);
    forall f, r ensures r in SelectRows(c.rows, f) <==> r in SelectMemory(c.cache, f) {
      FoundInRows(c, f, r);
      if r in c.cache {
        SearchesAgreeIff(r);
      }
    }
  }

  lemma {:induction false} SavedOnly(ops: seq<StoreOp>)
    ensures forall r :: r in After(ops).cache || r in Data(After(ops).rows) ==>
              exists op :: op in ops && op.SaveOp? && op.receipt == r
  {
    if ops != [] {
      var front, op := ops[..|ops| - 1], ops[|ops| - 1];
      SavedOnly(front);
      AlwaysPaired(front);
      assert op in ops;
      assert forall o :: o in front ==> o in ops;
      if op.SaveOp? {
        PutKeeps(After(front).cache, op.receipt);
        ReplaceKeeps(After(front).rows, op.receipt, op.now);
      } else {
        ReopenedRows(After(front).rows);
      }
    }
  }

  // ----- reopening

  lemma {:induction false} LookupMember(cache: seq<Receipt>, id: string)
    requires DistinctIds(cache)
    ensures Lookup(cache, id).Some? ==> Lookup(cache, id).value in cache && Lookup(cache, id).value.id == id
    ensures forall r :: r in cache && r.id == id ==> Lookup(cache, id) == Some(r)
  {
    if cache != [] {
      LookupMember(cache[1..], id);
      assert forall r :: r in cache[1..] ==> r.id != cache[0].id;
    }
  }

  lemma {:induction false} LoadMembers(cache: seq<Receipt>, rows: seq<Row>)
    requires DistinctIds(cache + Data(rows))
    ensures Load(cache, rows) == cache + Data(rows)
    decreases |rows|
  {
    if rows == [] {
      assert cache + Data(rows) == cache;
    } else {
      var r := rows[0].data;
      var all := cache + Data(rows);
      forall i | 0 <= i < |cache| ensures cache[i].id != r.id {
        assert all[i].id != all[|cache|].id;
      }
      PutNew(cache, r);
      assert (cache + [r]) + Data(rows[1..]) == all;
      LoadMembers(cache + [r], rows[1..]);
    }
  }

  lemma {:induction false} PutNew(cache: seq<Receipt>, r: Receipt)
    requires forall i :: 0 <= i < |cache| ==> cache[i].id != r.id
    ensures Put(cache, r) == cache + [r]
  {
    if cache != [] {
      PutNew(cache[1..], r);
      assert cache + [r] == [cache[0]] + (cache[1..] + [r]);
    }
  }

  lemma DistinctTail(rs: seq<Receipt>)
    requires rs != []
    ensures DistinctIds(rs) <==> DistinctIds(rs[1..]) && forall x :: x in rs[1..] ==> x.id != rs[0].id
  {
    if DistinctIds(rs[1..]) && forall x :: x in rs[1..] ==> x.id != rs[0].id {
      forall i, j | 0 <= i < j < |rs| ensures rs[i].id != rs[j].id {
        assert rs[j] == rs[1..][j - 1] && rs[1..][j - 1] in rs[1..];
        if i > 0 {
          assert rs[i] == rs[1..][i - 1];
        }
      }
    }
  }

  lemma {:induction false} InsertIds(row: Row, rows: seq<Row>)
    requires DistinctIds([row.data] + Data(rows))
    ensures DistinctIds(Data(Insert(row, rows, OlderFirst)))
    ensures forall x :: x in Data(Insert(row, rows, OlderFirst)) <==> x == row.data || x in Data(rows)
  {
    var all := [row.data] + Data(rows);
    if rows != [] && !OlderFirst(row, rows[0]) {
      DistinctTail(all);
      assert all[1..] == Data(rows);
      var tail := Data(rows[1..]);
      assert Data(rows) == [rows[0].data] + tail;
      DistinctTail(Data(rows));
      assert Data(rows)[1..] == tail;
      DistinctTail([row.data] + tail);
      assert ([row.data] + tail)[1..] == tail;
      InsertIds(row, rows[1..]);
      var rest := Insert(row, rows[1..], OlderFirst);
      assert rows[0].data in Data(rows);
      DistinctTail([rows[0].data] + Data(rest));
      assert ([rows[0].data] + Data(rest))[1..] == Data(rest);
    }
  }

  lemma {:induction false} SortIds(rows: seq<Row>)
    requires DistinctIds(Data(rows))
    ensures DistinctIds(Data(Sort(rows, OlderFirst)))
    ensures forall x :: x in Data(Sort(rows, OlderFirst)) <==> x in Data(rows)
  {
    if rows != [] {
      var tail := Data(rows[1..]);
      DistinctTail(Data(rows));
      assert Data(rows)[1..] == tail;
      SortIds(rows[1..]);
      var rest := Sort(rows[1..], OlderFirst);
      DistinctTail([rows[0].data] + Data(rest));
      assert ([rows[0].data] + Data(rest))[1..] == Data(rest);
      InsertIds(rows[0], rest);
    }
  }

  /** Reopening reads the rows' receipts, in the order of their creation times. */
  lemma ReopenedRows(rows: seq<Row>)
    requires DistinctIds(Data(rows))
    ensures Reopened(rows) == Data(Sort(rows, OlderFirst)) && DistinctIds(Reopened(rows))
    ensures forall x :: x in Reopened(rows) <==> x in Data(rows)
  {
    SortIds(rows);
    var ordered := Sort(rows, OlderFirst);
    assert [] + Data(ordered) == Data(ordered);
    LoadMembers([], ordered);
  }

  /** Closing and reopening the database changes the answer to a `get` exactly when it was never stored. */
  lemma ReopeningPreservesGetIff(ops: seq<StoreOp>, id: string)
    ensures var before, after := Lookup(After(ops).cache, id), Lookup(After(ops + [Reopen]).cache, id);
            after == before <==> (before.Some? ==> Storable(before.value))
  {
    var c := After(ops);
    assert (ops + [Reopen])[..|ops|] == ops;
    AlwaysPaired(ops);
    ReopenedRows(c.rows);
    LookupMember(c.cache, id);
    LookupMember(Reopened(c.rows), id);
  }

  /** `get` returns the latest receipt saved under the id, unless that was never stored and then reopened. */
  lemma GetReturnsLatestIff(ops: seq<StoreOp>, k: nat)
    requires k < |ops| && ops[k].SaveOp?
    requires forall j :: k < j < |ops| && ops[j].SaveOp? ==> ops[j].receipt.id != ops[k].receipt.id
    ensures Lookup(After(ops).cache, ops[k].receipt.id) == Some(ops[k].receipt)
       <==> Storable(ops[k].receipt) || Reopen !in ops[k + 1..]
  {
    LatestCachedIff(ops, k);
    AlwaysPaired(ops);
    LookupMember(After(ops).cache, ops[k].receipt.id);
  }

  /** Reopening keeps a cached receipt exactly when it was stored, and brings back none that was not. */
  lemma ReopenKeeps(c: Contents, r: Receipt)
    requires Paired(c) && (r in c.cache || !Storable(r))
    ensures r in Reopened(c.rows) <==> Storable(r)
  {
    ReopenedRows(c.rows);
  }

  lemma OtherSaveKeeps(c: Contents, r: Receipt, saved: Receipt)
    requires Paired(c) && saved.id != r.id
    ensures r in Put(c.cache, saved) <==> r in c.cache
  {
    PutKeeps(c.cache, saved);
  }

  lemma ReopenSnoc(ops: seq<StoreOp>, k: nat)
    requires k < |ops| - 1
    ensures Reopen in ops[k + 1..] <==> Reopen in ops[..|ops| - 1][k + 1..] || ops[|ops| - 1] == Reopen
  {
    assert ops[k + 1..] == ops[..|ops| - 1][k + 1..] + [ops[|ops| - 1]];
  }

  lemma {:induction false} LatestCachedIff(ops: seq<StoreOp>, k: nat)
    requires k < |ops| && ops[k].SaveOp?
    requires forall j :: k < j < |ops| && ops[j].SaveOp? ==> ops[j].receipt.id != ops[k].receipt.id
    ensures ops[k].receipt in After(ops).cache <==> Storable(ops[k].receipt) || Reopen !in ops[k + 1..]
  {
    var front, op, r := ops[..|ops| - 1], ops[|ops| - 1], ops[k].receipt;
    AlwaysPaired(front);
    if k == |ops| - 1 {
      PutKeeps(After(front).cache, r);
    } else {
      LatestCachedIff(front, k);
      ReopenSnoc(ops, k);
      if op.SaveOp? {
        OtherSaveKeeps(After(front), r, op.receipt);
      } else {
        ReopenKeeps(After(front), r);
      }
    }
  }

  // ----- pages

  /** A client that pages through a result until a page comes back empty. */
  function PageThrough<T>(s: seq<T>, offset: nat, limit: nat): seq<T>
    requires limit > 0
    decreases |s| - offset
  {
    var page := Page(s, offset, limit);
    if page == [] then []
    else
      assert offset < |s|;
      page + PageThrough(s, offset + limit, limit)
  }

  lemma PageIsSlice<T>(s: seq<T>, offset: nat, limit: nat)
    requires offset <= |s|
    ensures Page(s, offset, limit) == s[offset..Min(|s|, offset + limit)]
  {
  }

  lemma PastTheEnd<T>(s: seq<T>, offset: nat, limit: nat)
    requires limit > 0 && offset >= |s|
    ensures PageThrough(s, offset, limit) == []
  {
  }

  lemma OnePage<T>(s: seq<T>, offset: nat, limit: nat, hi: nat, rest: seq<T>)
    requires limit > 0 && offset < |s| && hi == Min(|s|, offset + limit)
    requires PageThrough(s, offset + limit, limit) == rest == s[hi..]
    ensures PageThrough(s, offset, limit) == s[offset..]
  {
    PageIsSlice(s, offset, limit);
    Glue(s, offset, hi);
  }

  /** Consecutive pages, laid end to end, are the full result: nothing repeated, nothing skipped. */
  lemma {:induction false} PagesConcatenate<T>(s: seq<T>, offset: nat, limit: nat)
    requires limit > 0 && offset <= |s|
    ensures PageThrough(s, offset, limit) == s[offset..]
    decreases |s| - offset
  {
    if offset + limit < |s| {
      PagesConcatenate(s, offset + limit, limit);
      OnePage(s, offset, limit, offset + limit, s[offset + limit..]);
    } else {
      PastTheEnd(s, offset + limit, limit);
      if offset < |s| {
        OnePage(s, offset, limit, |s|, []);
      } else {
        PastTheEnd(s, offset, limit);
      }
    }
  }

  lemma Glue<T>(s: seq<T>, lo: nat, hi: nat)
    requires lo <= hi <= |s|
    ensures s[lo..hi] + s[hi..] == s[lo..]
  {
  }

  /** A list on which the two readings of a page differ, when there is one. */
  function Tell(offset: int, limit: int): nat {
    if limit < 0 then Max(0, offset) + 1
    else if offset + limit <= 0 then 1
    else Max(0, limit - offset)
  }

  /** Table and cache page alike, on every list, exactly when nothing is asked for or no bound is negative. */
  lemma PagesAgreeIff(offset: int, limit: int)
    ensures (forall s: seq<int> :: SqlPage(s, offset, limit) == Page(s, offset, limit))
       <==> limit == 0 || (0 <= offset && 0 <= limit)
  {
    if limit != 0 && (offset < 0 || limit < 0) {
      var s := seq(Tell(offset, limit), i => 0);
      assert |SqlPage(s, offset, limit)| > |Page(s, offset, limit)| == 0;
    }
  }

  // ----- what each filter means

  /** Filters act one by one, an empty one not at all: exact names, a least payout, a greatest latency, a verdict. */
  lemma FiltersMeaning(r: Receipt, f: Filters)
    ensures MemoryMatches(r, f) <==>
              && MemoryMatches(r, NO_FILTERS.(buyer := f.buyer)) && MemoryMatches(r, NO_FILTERS.(seller := f.seller))
              && MemoryMatches(r, NO_FILTERS.(minPayout := f.minPayout))
              && MemoryMatches(r, NO_FILTERS.(maxLatencyMs := f.maxLatencyMs))
              && MemoryMatches(r, NO_FILTERS.(validationPass := f.validationPass))
              && MemoryMatches(r, NO_FILTERS.(rule := f.rule))
    ensures MemoryMatches(r, NO_FILTERS)
    ensures f.buyer != "" ==> (MemoryMatches(r, NO_FILTERS.(buyer := f.buyer)) <==> r.buyer == f.buyer)
    ensures f.seller != "" ==> (MemoryMatches(r, NO_FILTERS.(seller := f.seller)) <==> r.seller == f.seller)
    ensures f.rule != "" ==>
              (MemoryMatches(r, NO_FILTERS.(rule := f.rule)) <==> r.pricing.Some? && r.pricing.value.rule == f.rule)
  {
  }

  /** The bounds belong to what they admit; a boolean verdict is found under itself alone, any other under none. */
  lemma BoundsMeaning(r: Receipt, payout: int, latencyMs: int, pass: bool)
    ensures MemoryMatches(r, NO_FILTERS.(minPayout := Some(payout))) <==>
              r.pricing.Some? && !(r.pricing.value.payout < payout)
    ensures MemoryMatches(r, NO_FILTERS.(maxLatencyMs := Some(latencyMs))) <==> !(r.latencyMs > latencyMs)
    ensures MemoryMatches(r, NO_FILTERS.(validationPass := Some(pass))) <==> r.verdict == Flag(pass)
  {
  }

  /** Rows are matched by their columns in the same way, every row having all of them. */
  lemma RowFiltersMeaning(c: Columns, f: Filters)
    ensures RowMatches(c, f) <==>
              && (f.buyer == "" || c.buyer == f.buyer) && (f.seller == "" || c.seller == f.seller)
              && (f.rule == "" || c.rule == f.rule)
              && (f.minPayout.None? || !(c.payout < f.minPayout.value))
              && (f.maxLatencyMs.None? || !(c.latencyMs > f.maxLatencyMs.value))
              && (f.validationPass.None? || c.validationPass == (if f.validationPass.value then 1 else 0))
  {
  }

  // ----- order and time

  /** A save keeps every other receipt where it is cached, and takes the place of its id, or the next free one. */
  lemma {:induction false} PutInPlace(cache: seq<Receipt>, r: Receipt)
    ensures |cache| <= |Put(cache, r)| <= |cache| + 1
    ensures |Put(cache, r)| == |cache| <==> exists i :: 0 <= i < |cache| && cache[i].id == r.id
    ensures forall i :: 0 <= i < |cache| ==> Put(cache, r)[i].id == cache[i].id
    ensures forall i :: 0 <= i < |cache| && cache[i].id != r.id ==> Put(cache, r)[i] == cache[i]
    ensures |Put(cache, r)| > |cache| ==> Put(cache, r)[|cache|] == r
  {
    if cache != [] && cache[0].id != r.id {
      PutInPlace(cache[1..], r);
      assert forall i :: 0 < i < |cache| ==> cache[i] == cache[1..][i - 1];
      assert forall i :: 0 <= i < |cache[1..]| ==> cache[1..][i] == cache[i + 1];
    }
  }

  /** A stored receipt's row carries the time of the save that stored it. */
  lemma {:induction false} RowIsStamped(ops: seq<StoreOp>, k: nat)
    requires k < |ops| && ops[k].SaveOp? && Storable(ops[k].receipt)
    requires forall j :: k < j < |ops| && ops[j].SaveOp? ==> ops[j].receipt.id != ops[k].receipt.id
    ensures Row(ops[k].receipt, ops[k].now, Extract(ops[k].receipt)) in After(ops).rows
  {
    if k < |ops| - 1 {
      RowIsStamped(ops[..|ops| - 1], k);
    }
  }

  /** After reopening the cache lists the stored receipts oldest first. */
  lemma ReopenedOldestFirst(ops: seq<StoreOp>)
    ensures exists ordered: seq<Row> ::
              && multiset(ordered) == multiset(After(ops).rows)
              && (forall i, j :: 0 <= i < j < |ordered| ==> ordered[i].createdAt <= ordered[j].createdAt)
              && |After(ops + [Reopen]).cache| == |ordered|
              && forall i :: 0 <= i < |ordered| ==> After(ops + [Reopen]).cache[i] == ordered[i].data
  {
    var rows := After(ops).rows;
    var ordered := Sort(rows, OlderFirst);
    assert (ops + [Reopen])[..|ops|] == ops;
    AlwaysPaired(ops);
    ReopenedRows(rows);
    SortSorts(rows, OlderFirst);
    SortPermutes(rows, OlderFirst);
    DataAt(ordered);
  }

  /** Negative bounds in the query: no limit at all, and an offset of 0. */
  lemma SqlPageMeaning<T>(s: seq<T>, offset: nat, limit: nat, negative: int)
    requires negative < 0
    ensures SqlPage(s, negative, limit) == SqlPage(s, 0, limit)
    ensures offset <= |s| ==> SqlPage(s, offset, negative) == s[offset..]
    ensures offset + limit <= |s| ==> SqlPage(s, offset, limit) == s[offset..offset + limit]
    ensures offset <= |s| < offset + limit ==> SqlPage(s, offset, limit) == s[offset..]
    ensures offset > |s| ==> SqlPage(s, offset, limit) == SqlPage(s, offset, negative) == []
  {
  }

  /** Negative bounds in a slice count from the end. */
  lemma PageMeaning<T>(s: seq<T>, back: int, limit: int)
    requires 0 < back <= |s| && 0 <= limit
    ensures limit < back ==> Page(s, -back, limit) == s[|s| - back..|s| - back + limit]
    ensures Page(s, 0, -back) == s[..|s| - back]
  {
  }
}

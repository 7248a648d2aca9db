/**
  * The in-memory customer store: an ordered list of CSV rows (each a map
  * from field name to value) with add, remove, search, filter and the
  * per-branch balance totals. Reading and writing the CSV files is outside
  * the model: the store starts from the rows `read_csv` returned.
  */
module Customers {
  import opened Wrappers
  import opened Text
  import opened Seqs
  import opened Validators
  import opened Sorting

  /** One CSV row, as `csv.DictReader` yields it. */
  type Record = map<string, string>

  const IdKey := "customer_id"

  /** `c.get(key, '')` */
  function Get(c: Record, key: string): string {
    if key in c then c[key] else ""
  }

  /** Every row has the field `key` (so `c[key]` cannot raise KeyError). */
  predicate HasKey(s: seq<Record>, key: string) {
    forall i :: 0 <= i < |s| ==> key in s[i]
  }

  /** `any(c['customer_id'] == id for c in s)` */
  predicate HasId(s: seq<Record>, id: string) {
    exists i :: 0 <= i < |s| && Get(s[i], IdKey) == id
  }

  function WithId(s: seq<Record>, id: string): seq<Record> {
    Filter(s, (c: Record) => Get(c, IdKey) == id)
  }

  /** `[c for c in s if c['customer_id'] != id]` */
  function Without(s: seq<Record>, id: string): seq<Record> {
    Filter(s, (c: Record) => Get(c, IdKey) != id)
  }

  // ------------------------------------------------------- id generation

  /** `int(c['customer_id'])` for each row, None if any of them raises ValueError. */
  function ParseIds(s: seq<Record>): (r: Option<seq<int>>)
    requires HasKey(s, IdKey)
    ensures r.Some? <==> forall i :: 0 <= i < |s| ==> ParseInt(s[i][IdKey]).Some?
    ensures r.Some? ==> |r.value| == |s| && forall i :: 0 <= i < |s| ==> ParseInt(s[i][IdKey]) == Some(r.value[i])
  {
    if s == [] then Some([])
    else
      var rest := ParseIds(s[1..]);
      match ParseInt(s[0][IdKey])
      case None => None
      case Some(x) => if rest.None? then None else Some([x] + rest.value)
  }

  /** `max(xs)` */
  function Max(xs: seq<int>): (m: int)
    requires |xs| > 0
    ensures m in xs
    ensures forall i :: 0 <= i < |xs| ==> xs[i] <= m
  {
    if |xs| == 1 then xs[0]
    else
      var rest := Max(xs[1..]);
      if xs[0] >= rest then xs[0] else rest
  }

  /** The id `add_customer` generates: `str(max(int ids) + 1)`, None on a ValueError. */
  function NextId(s: seq<Record>): Option<string>
    requires |s| > 0 && HasKey(s, IdKey)
  {
    match ParseIds(s)
    case None => None
    case Some(ids) => Some(IntToString(Max(ids) + 1))
  }

  /** The generated id differs from every id already in the store. */
  lemma NextIdFresh(s: seq<Record>, id: string)
    requires |s| > 0 && HasKey(s, IdKey) && NextId(s) == Some(id)
    ensures !HasId(s, id)
  {
    var ids := ParseIds(s).value;
    ParseIntToString(Max(ids) + 1);
  }

  /** After the new row is appended, exactly one row carries the generated id. */
  lemma AddedIdUnique(s: seq<Record>, r: Record)
    requires |s| > 0 && HasKey(s, IdKey) && IdKey in r && NextId(s) == Some(r[IdKey])
    ensures |WithId(s + [r], r[IdKey])| == 1
  {
    var id := r[IdKey];
    var p := (c: Record) => Get(c, IdKey) == id;
    NextIdFresh(s, id);
    FilterConcat(s, [r], p);
    FilterEmpty(s, p);
    assert Filter([r], p) == [r];
  }

  /** The row `add_customer` builds: every field of the header, the generated id
      under `customer_id`, the entered value under every other field. */
  function NewRecord(header: set<string>, values: map<string, string>, id: string): Record
    requires forall k :: k in header && k != IdKey ==> k in values
  {
    map k | k in header :: if k == IdKey then id else values[k]
  }

  // ---------------------------------------------------------------- store

  datatype AddOutcome = NoTemplate | InvalidIds | Added(record: Record)

  datatype RemoveOutcome = NothingToRemove | NotFound | HasTransactions | Removed(count: nat)

  class CustomerStore {
    var customers: seq<Record>

    /** A store holding the rows `read_csv` returned. */
    constructor (rows: seq<Record>)
      ensures customers == rows
    {
      customers := rows;
    }

    /** `add_customer`. `values` are the answers the re-prompt loop accepted,
        so each one passes its field's validator. */
    method Add(ghost parsers: Parsers, values: map<string, string>) returns (outcome: AddOutcome)
      requires customers != [] && IdKey in customers[0] ==> HasKey(customers, IdKey)
      requires customers != [] ==>
        forall k :: k in customers[0] && k != IdKey ==> k in values && FieldValid(parsers, k, values[k])
      modifies this
      ensures old(customers) == [] <==> outcome == NoTemplate
      ensures old(customers) != [] && IdKey in old(customers)[0] ==>
        (outcome == InvalidIds <==> NextId(old(customers)).None?)
      ensures old(customers) != [] && IdKey !in old(customers)[0] ==> outcome.Added?
      ensures !outcome.Added? ==> customers == old(customers)
      ensures outcome.Added? ==>
        && customers == old(customers) + [outcome.record]
        && outcome.record.Keys == old(customers)[0].Keys
        && (forall k :: k in outcome.record && k != IdKey ==> outcome.record[k] == values[k])
        && (IdKey in outcome.record ==> Some(outcome.record[IdKey]) == NextId(old(customers)))
    {
      if customers == [] {
        return NoTemplate;
      }
      var header := customers[0].Keys;
      var id := "";
      if IdKey in header {
        var next := NextId(customers);
        if next.None? {
          return InvalidIds;
        }
        id := next.value;
      }
      var record := NewRecord(header, values, id);
      customers := customers + [record];
      return Added(record);
    }

    /** `remove_customer` (the in-memory part): refuses an unknown id and an id
        some transaction refers to, otherwise drops every row with that id. */
    method Remove(entered: string, transactions: seq<Record>) returns (outcome: RemoveOutcome)
      requires HasKey(customers, IdKey) && HasKey(transactions, IdKey)
      modifies this
      ensures old(customers) == [] <==> outcome == NothingToRemove
      ensures old(customers) != [] ==> (outcome == NotFound <==> !HasId(old(customers), Strip(entered)))
      ensures old(customers) != [] && HasId(old(customers), Strip(entered)) ==>
        (outcome == HasTransactions <==> HasId(transactions, Strip(entered)))
      ensures !outcome.Removed? ==> customers == old(customers)
      ensures outcome.Removed? ==>
        customers == Without(old(customers), Strip(entered)) && outcome.count == |old(customers)| - |customers|
    {
      if customers == [] {
        return NothingToRemove;
      }
      var id := Strip(entered);
      if !HasId(customers, id) {
        return NotFound;
      }
      if transactions != [] && HasId(transactions, id) {
        return HasTransactions;
      }
      var before := |customers|;
      RemovedCount(customers, id);
      customers := Without(customers, id);
      return Removed(before - |customers|);
    }
  }

  /** Removing keeps exactly the rows with another id. */
  lemma WithoutMembership(s: seq<Record>, id: string, c: Record)
    ensures c in Without(s, id) <==> c in s && Get(c, IdKey) != id
  {
    FilterMembership(s, (c: Record) => Get(c, IdKey) != id, c);
  }

  /** Removing keeps the surviving rows in their original order. */
  lemma WithoutConcat(a: seq<Record>, b: seq<Record>, id: string)
    ensures Without(a + b, id) == Without(a, id) + Without(b, id)
  {
    FilterConcat(a, b, (c: Record) => Get(c, IdKey) != id);
  }

  /** The count reported, `before - after`, is the number of rows with the id:
      at least one when the id exists. */
  lemma RemovedCount(s: seq<Record>, id: string)
    ensures |s| - |Without(s, id)| == |WithId(s, id)|
    ensures HasId(s, id) ==> |WithId(s, id)| >= 1
  {
    var p := (c: Record) => Get(c, IdKey) == id;
    FilterSplit(s, p, (c: Record) => Get(c, IdKey) != id);
    FilterEmpty(s, p);
  }

  /** A second removal of the same id changes nothing. */
  lemma WithoutIdempotent(s: seq<Record>, id: string)
    ensures Without(Without(s, id), id) == Without(s, id)
  {
    var p := (c: Record) => Get(c, IdKey) != id;
    var t := Without(s, id);
    forall i | 0 <= i < |t|
      ensures p(t[i])
    {
      FilterMembership(s, p, t[i]);
    }
    FilterKeepsAll(t, p);
  }

  // --------------------------------------------------------------- search

  /** At most this many matches are displayed. */
  const DisplayLimit := 10

  /** `field_map` of `check_customer_exists`. */
  function SearchField(choice: string): Option<string> {
    if choice == "1" then Some("name")
    else if choice == "2" then Some("city")
    else if choice == "3" then Some("account_type")
    else if choice == "4" then Some("gender")
    else if choice == "5" then Some("state")
    else None
  }

  /** `query.lower() in c.get(field, '').lower()` */
  predicate SearchHit(c: Record, field: string, query: string) {
    Contains(Lower(Get(c, field)), Lower(query))
  }

  function SearchMatches(s: seq<Record>, field: string, query: string): seq<Record> {
    Filter(s, (c: Record) => SearchHit(c, field, query))
  }

  datatype SearchOutcome =
    | NothingLoaded
    | EmptyQuery
    | InvalidChoice
    | Found(field: string, shown: seq<Record>, total: nat, notShown: nat)

  /** `check_customer_exists` on the two lines the user typed. */
  function Search(customers: seq<Record>, choiceInput: string, queryInput: string): (r: SearchOutcome)
    ensures r == NothingLoaded <==> customers == []
    ensures r == EmptyQuery <==> customers != [] && Strip(queryInput) == ""
    ensures r == InvalidChoice <==>
      customers != [] && Strip(queryInput) != "" && SearchField(Strip(choiceInput)).None?
    ensures r.Found? ==>
      && Some(r.field) == SearchField(Strip(choiceInput))
      && r.total == |SearchMatches(customers, r.field, Strip(queryInput))|
      && |r.shown| == (if r.total > DisplayLimit then DisplayLimit else r.total)
      && r.shown == SearchMatches(customers, r.field, Strip(queryInput))[..|r.shown|]
      && |r.shown| + r.notShown == r.total
  {
    if customers == [] then NothingLoaded
    else
      var query := Strip(queryInput);
      if query == "" then EmptyQuery
      else match SearchField(Strip(choiceInput))
        case None => InvalidChoice
        case Some(field) =>
          var matches := SearchMatches(customers, field, query);
          if |matches| > DisplayLimit then Found(field, matches[..DisplayLimit], |matches|, |matches| - DisplayLimit)
          else Found(field, matches, |matches|, 0)
  }

  /** The matches are exactly the rows whose field contains the query, ignoring case. */
  lemma SearchMatchesExactly(s: seq<Record>, field: string, query: string, c: Record)
    ensures c in SearchMatches(s, field, query) <==> c in s && SearchHit(c, field, query)
  {
    FilterMembership(s, (c: Record) => SearchHit(c, field, query), c);
  }

  /** The matches keep the order of the store. */
  lemma SearchMatchesConcat(a: seq<Record>, b: seq<Record>, field: string, query: string)
    ensures SearchMatches(a + b, field, query) == SearchMatches(a, field, query) + SearchMatches(b, field, query)
  {
    FilterConcat(a, b, (c: Record) => SearchHit(c, field, query));
  }

  /** A row without the searched field reads as '' and never matches a non-empty query. */
  lemma MissingFieldNeverMatches(c: Record, field: string, query: string)
    requires field !in c && query != ""
    ensures !SearchHit(c, field, query)
  {
    assert Lower(Get(c, field)) == "";
    EmptyContainsOnlyEmpty(Lower(query));
  }

  // --------------------------------------------------------------- filter

  /** The choices of `filter_customers`. */
  function FilterField(choice: string): Option<string> {
    if choice == "1" then Some("city")
    else if choice == "2" then Some("account_type")
    else None
  }

  /** `c[field].lower() == value` */
  predicate FieldEquals(c: Record, field: string, value: string) {
    Lower(Get(c, field)) == value
  }

  function FilterMatches(s: seq<Record>, field: string, value: string): seq<Record> {
    Filter(s, (c: Record) => FieldEquals(c, field, value))
  }

  function Name(c: Record): string { Get(c, "name") }

  /** `sorted(s, key=lambda c: c['name'])` */
  function SortByName(s: seq<Record>): seq<Record> {
    SortBy(s, Name)
  }

  /** `filter_customers` on the two lines the user typed. Rows the choice
      reads must carry the filtered field, and every match must carry a name. */
  function FilterCustomers(customers: seq<Record>, choiceInput: string, valueInput: string): (r: seq<Record>)
    requires customers != [] && FilterField(Strip(choiceInput)).Some? ==>
      var field := FilterField(Strip(choiceInput)).value;
      forall i :: 0 <= i < |customers| ==>
        field in customers[i] && (FieldEquals(customers[i], field, Lower(Strip(valueInput))) ==> "name" in customers[i])
    ensures customers == [] || FilterField(Strip(choiceInput)).None? ==> r == customers
    ensures customers != [] && FilterField(Strip(choiceInput)).Some? ==>
      var field := FilterField(Strip(choiceInput)).value;
      var value := Lower(Strip(valueInput));
      && SortedBy(r, Name)
      && multiset(r) == multiset(FilterMatches(customers, field, value))
      && forall k :: WithKey(r, Name, k) == WithKey(FilterMatches(customers, field, value), Name, k)
  {
    if customers == [] then customers
    else match FilterField(Strip(choiceInput))
      case None => customers
      case Some(field) =>
        var matches := FilterMatches(customers, field, Lower(Strip(valueInput)));
        SortByCorrect(matches, Name);
        SortByName(matches)
  }

  /** The filtered rows are exactly the rows whose field equals the value, ignoring case. */
  lemma FilterMatchesExactly(s: seq<Record>, field: string, value: string, c: Record)
    ensures c in FilterMatches(s, field, value) <==> c in s && FieldEquals(c, field, value)
  {
    FilterMembership(s, (c: Record) => FieldEquals(c, field, value), c);
  }

  // --------------------------------------------------- per-branch totals

  /** Sum of the balances of the rows of `branch`; `parseFloat` stands for `float()`. */
  function BranchSum(s: seq<Record>, branch: string, parseFloat: string -> real): real {
    if s == [] then 0.0
    else
      var c := s[|s| - 1];
      BranchSum(s[..|s| - 1], branch, parseFloat)
        + (if Get(c, "branch_code") == branch then parseFloat(Get(c, "account_balance")) else 0.0)
  }

  function Branches(s: seq<Record>): set<string> {
    set i | 0 <= i < |s| :: Get(s[i], "branch_code")
  }

  /** A branch no row names sums to nothing. */
  lemma {:induction false} BranchSumAbsent(s: seq<Record>, branch: string, parseFloat: string -> real)
    requires branch !in Branches(s)
    ensures BranchSum(s, branch, parseFloat) == 0.0
  {
    if s != [] {
      var n := |s| - 1;
      assert Branches(s[..n]) <= Branches(s) by {
        forall b | b in Branches(s[..n]) ensures b in Branches(s) {
          var i :| 0 <= i < n && Get(s[..n][i], "branch_code") == b;
          assert s[i] == s[..n][i];
        }
      }
      assert Get(s[n], "branch_code") in Branches(s);
      BranchSumAbsent(s[..n], branch, parseFloat);
    }
  }

  lemma BranchesStep(s: seq<Record>, i: int)
    requires 0 <= i < |s|
    ensures Branches(s[..i + 1]) == Branches(s[..i]) + {Get(s[i], "branch_code")}
  {
    var a, b := s[..i], s[..i + 1];
    forall x | x in Branches(b) ensures x in Branches(a) + {Get(s[i], "branch_code")} {
      var j :| 0 <= j <= i && Get(b[j], "branch_code") == x;
      if j < i {
        assert b[j] == a[j];
      }
    }
    forall x | x in Branches(a) ensures x in Branches(b) {
      var j :| 0 <= j < i && Get(a[j], "branch_code") == x;
      assert b[j] == a[j];
    }
    assert Get(b[i], "branch_code") in Branches(b);
  }

  lemma BranchSumStep(s: seq<Record>, i: int, branch: string, parseFloat: string -> real)
    requires 0 <= i < |s|
    ensures BranchSum(s[..i + 1], branch, parseFloat) == BranchSum(s[..i], branch, parseFloat)
      + (if Get(s[i], "branch_code") == branch then parseFloat(Get(s[i], "account_balance")) else 0.0)
  {
    assert s[..i + 1][..i] == s[..i];
    assert s[..i + 1][i] == s[i];
  }

  /** The aggregation loop of `dictionary_operations`: one entry per branch,
      holding the sum of that branch's balances. */
  method BranchTotals(customers: seq<Record>, parseFloat: string -> real) returns (totals: map<string, real>)
    requires HasKey(customers, "branch_code") && HasKey(customers, "account_balance")
    ensures totals.Keys == Branches(customers)
    ensures forall b :: b in totals ==> totals[b] == BranchSum(customers, b, parseFloat)
  {
    totals := map[];
    var i := 0;
    while i < |customers|
      invariant 0 <= i <= |customers|
      invariant totals.Keys == Branches(customers[..i])
      invariant forall b :: b in totals ==> totals[b] == BranchSum(customers[..i], b, parseFloat)
    {
      var c := customers[i];
      var branch := c["branch_code"];
      var balance := parseFloat(c["account_balance"]);
      var sofar := if branch in totals then totals[branch] else 0.0;
      if branch !in totals {
        BranchSumAbsent(customers[..i], branch, parseFloat);
      }
      BranchesStep(customers, i);
      totals := totals[branch := sofar + balance];
      forall b | b in totals
        ensures totals[b] == BranchSum(customers[..i + 1], b, parseFloat)
      {
        BranchSumStep(customers, i, b, parseFloat);
      }
      i := i + 1;
    }
    assert customers[..i] == customers;
  }
}

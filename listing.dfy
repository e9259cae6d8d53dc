/** The transactions view: the records that pass the optional filters of the request,
    newest date first. */
module Listing {
  import opened Dates
  import opened Records
  import opened Queries

  /** The request's filters. A date bound is None when it is missing or empty; a text
      filter applies only when it is present and not the empty string. */
  datatype Filters = Filters(
    fromDate: Option<Date>,
    toDate: Option<Date>,
    category: Option<string>,
    paymentMode: Option<string>,
    kind: Option<string>)

  /** A request argument that counts as given: present and non-empty. */
  predicate Given(arg: Option<string>) {
    arg.Some? && arg.value != ""
  }

  /** The conjunction of the filters that apply. */
  predicate Matches(f: Filters, t: Transaction) {
    && (f.fromDate.Some? ==> AtOrBefore(f.fromDate.value, t.date))
    && (f.toDate.Some? ==> AtOrBefore(t.date, f.toDate.value))
    && (Given(f.category) ==> t.category == f.category.value)
    && (Given(f.paymentMode) ==> t.paymentMode == f.paymentMode.value)
    && (Given(f.kind) ==> t.kind == f.kind.value)
  }

  /** The filters of a request that sets both date bounds to a form's date and the category,
      payment mode and type filters to the form's own values. */
  function FiltersFor(form: Form): Filters {
    Filters(Some(form.date), Some(form.date), Some(form.category), Some(form.paymentMode), Some(form.kind))
  }

  /** A record passes the filters set to a form's fields exactly when it has the form's date
      and, for each of category, payment mode and type that is not empty, the form's value;
      in particular every record with the form's fields passes. */
  lemma FiltersForSpec(form: Form, x: Transaction)
    ensures Matches(FiltersFor(form), x) <==>
      && x.date == form.date
      && (form.category != "" ==> x.category == form.category)
      && (form.paymentMode != "" ==> x.paymentMode == form.paymentMode)
      && (form.kind != "" ==> x.kind == form.kind)
    ensures FormOf(x) == form ==> Matches(FiltersFor(form), x)
  {
  }

  /** The multiset of a narrowed query: the records that pass p, as often as in rows. */
  ghost predicate Narrowed(query: seq<Transaction>, rows: seq<Transaction>, p: Transaction -> bool) {
    forall x :: multiset(query)[x] == if p(x) then multiset(rows)[x] else 0
  }

  /** Applying one more WHERE clause to a narrowed query narrows it by the conjunction. */
  lemma NarrowStep(query: seq<Transaction>, rows: seq<Transaction>,
                    p: Transaction -> bool, q: Transaction -> bool, pq: Transaction -> bool)
    requires Narrowed(query, rows, p)
    requires forall x :: pq(x) == (p(x) && q(x))
    ensures Narrowed(Filter(query, q), rows, pq)
  {
    FilterSpec(query, q);
  }

  /** Starting from the whole table, apply each filter that is given, then order by date,
      newest first. */
  method ListTransactions(rows: seq<Transaction>, f: Filters) returns (out: seq<Transaction>)
    ensures forall x :: multiset(out)[x] == if Matches(f, x) then multiset(rows)[x] else 0
    ensures SortedBy(out, DateDescRank)
  {
    var query := rows;
    ghost var p: Transaction -> bool := (x: Transaction) => true;
    if f.fromDate.Some? {
      var from := f.fromDate.value;
      ghost var p' := (x: Transaction) => p(x) && AtOrBefore(from, x.date);
      NarrowStep(query, rows, p, (t: Transaction) => AtOrBefore(from, t.date), p');
      query := Filter(query, (t: Transaction) => AtOrBefore(from, t.date));
      p := p';
    }
    if f.toDate.Some? {
      var to := f.toDate.value;
      ghost var p' := (x: Transaction) => p(x) && AtOrBefore(x.date, to);
      NarrowStep(query, rows, p, (t: Transaction) => AtOrBefore(t.date, to), p');
      query := Filter(query, (t: Transaction) => AtOrBefore(t.date, to));
      p := p';
    }
    if Given(f.category) {
      var category := f.category.value;
      ghost var p' := (x: Transaction) => p(x) && x.category == category;
      NarrowStep(query, rows, p, (t: Transaction) => t.category == category, p');
      query := Filter(query, (t: Transaction) => t.category == category);
      p := p';
    }
    if Given(f.paymentMode) {
      var mode := f.paymentMode.value;
      ghost var p' := (x: Transaction) => p(x) && x.paymentMode == mode;
      NarrowStep(query, rows, p, (t: Transaction) => t.paymentMode == mode, p');
      query := Filter(query, (t: Transaction) => t.paymentMode == mode);
      p := p';
    }
    if Given(f.kind) {
      var kind := f.kind.value;
      ghost var p' := (x: Transaction) => p(x) && x.kind == kind;
      NarrowStep(query, rows, p, (t: Transaction) => t.kind == kind, p');
      query := Filter(query, (t: Transaction) => t.kind == kind);
      p := p';
    }
    assert Narrowed(query, rows, p);
    assert forall x :: p(x) == Matches(f, x);
    out := SortBy(query, DateDescRank);
  }

  /** Sorted by descending day number, records with real dates are in newest-first date order. */
  lemma NewestFirst(s: seq<Transaction>)
    requires SortedBy(s, DateDescRank)
    requires forall i :: 0 <= i < |s| ==> Valid(s[i].date)
    ensures forall i, j :: 0 <= i < j < |s| ==> AtOrBefore(s[j].date, s[i].date)
  {
    forall i, j | 0 <= i < j < |s|
      ensures AtOrBefore(s[j].date, s[i].date)
    {
      assert DateDescRank(s[i]) <= DateDescRank(s[j]);
      OrdinalOrder(s[i].date, s[j].date);
    }
  }
}

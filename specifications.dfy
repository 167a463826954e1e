/** The createSpecification / findByCriteria / countByCriteria pattern every *QueryService
    follows: a criteria object becomes an ordered conjunction (distinct first, then one
    condition per non-null filter in declaration order), and find and count run that
    conjunction over the table. */
module Specifications {
  import opened JavaLang
  import opened Filters
  import opened CriteriaClasses
  import opened CriteriaLaws
  import opened Persistence

  /** One conjunct that createSpecification adds with specification.and(...). */
  datatype Conjunct =
    | Distinct(distinct: bool)
    | FieldCondition(field: nat, builder: Builder, spec: FilterSpec)

  /** Specification.where(null) followed by .and(c) for each c, in order. */
  type Specification = seq<Conjunct>

  /** The conditions for the first n fields: one per non-null filter, in field order. */
  function FieldConjuncts(schema: Schema, filters: seq<Option<FilterValue>>, n: nat): Specification
    requires n <= |filters| == |schema.fields|
  {
    if n == 0 then []
    else
      FieldConjuncts(schema, filters, n - 1)
      + (if filters[n - 1].Some? then [FieldCondition(n - 1, schema.fields[n - 1].builder, filters[n - 1].value.spec)] else [])
  }

  /** The specification of a criteria value: distinct first when it is non-null, then the
      field conditions. */
  function SpecificationOf(schema: Schema, v: CriteriaValue): Specification
    requires |v.filters| == |schema.fields|
  {
    (if v.distinct.Some? then [Distinct(v.distinct.value)] else []) + FieldConjuncts(schema, v.filters, |v.filters|)
  }

  /** createSpecification: the empty specification for a null criteria object; otherwise the
      distinct conjunct if set, then a condition for each non-null getter, field by field. */
  method CreateSpecification(criteria: Criteria?) returns (s: Specification)
    requires criteria != null ==> criteria.Valid()
    ensures criteria == null ==> s == []
    ensures criteria != null ==> s == SpecificationOf(criteria.schema, criteria.Value())
  {
    s := [];
    if criteria != null {
      if criteria.distinct.Some? {
        s := s + [Distinct(criteria.distinct.value)];
      }
      ghost var head := s;
      ghost var v := criteria.Value();
      var i := 0;
      while i < |criteria.filters|
        invariant 0 <= i <= |criteria.filters|
        invariant s == head + FieldConjuncts(criteria.schema, v.filters, i)
      {
        var f := criteria.Get(i);
        if f != null {
          s := s + [FieldCondition(i, criteria.schema.fields[i].builder, f.spec)];
        }
        i := i + 1;
      }
    }
  }

  /** An entity as a specification sees it: for each criteria field, the values its path
      reaches (one for an attribute or a to-one join, one per joined entity for a to-many
      join, a single null when the join finds nothing). */
  type Row = seq<set<Option<Value>>>

  /** distinct(...) only marks the query distinct and contributes no predicate. */
  predicate Satisfies(c: Conjunct, row: Row) {
    match c
    case Distinct(_) => true
    case FieldCondition(i, b, f) => i < |row| && FilterHolds(b, f, row[i])
  }

  predicate Matches(s: Specification, row: Row) {
    forall k :: 0 <= k < |s| ==> Satisfies(s[k], row)
  }

  /** findAll(specification): the matching rows of the table, in table order. */
  function Find<R>(s: Specification, view: R -> Row, rows: seq<R>): (found: seq<R>)
    ensures |found| <= |rows|
    ensures forall x :: x in found ==> x in rows && Matches(s, view(x))
    ensures forall x :: x in rows && Matches(s, view(x)) ==> x in found
  {
    if rows == [] then []
    else (if Matches(s, view(rows[0])) then [rows[0]] else []) + Find(s, view, rows[1..])
  }

  /** count(specification): the number of matching rows. */
  function Count<R>(s: Specification, view: R -> Row, rows: seq<R>): (n: nat)
    ensures n <= |rows|
    ensures n == 0 <==> forall x :: x in rows ==> !Matches(s, view(x))
  {
    if rows == [] then 0
    else (if Matches(s, view(rows[0])) then 1 else 0) + Count(s, view, rows[1..])
  }

  /** find and count agree: count is the length of what find returns. */
  lemma {:induction false} CountIsSizeOfFind<R>(s: Specification, view: R -> Row, rows: seq<R>)
    ensures Count(s, view, rows) == |Find(s, view, rows)|
  {
    if rows != [] {
      CountIsSizeOfFind(s, view, rows[1..]);
    }
  }

  /** The empty specification, which a null criteria object yields, keeps every row. */
  lemma {:induction false} EmptySpecificationFindsAll<R>(view: R -> Row, rows: seq<R>)
    ensures Find([], view, rows) == rows
  {
    if rows != [] {
      EmptySpecificationFindsAll(view, rows[1..]);
    }
  }

  lemma MatchesAppend(a: Specification, b: Specification, row: Row)
    ensures Matches(a + b, row) <==> Matches(a, row) && Matches(b, row)
  {
    if Matches(a, row) && Matches(b, row) {
      forall k | 0 <= k < |a + b| ensures Satisfies((a + b)[k], row) {
        if k >= |a| {
          assert (a + b)[k] == b[k - |a|];
        }
      }
    }
    if Matches(a + b, row) {
      forall k | 0 <= k < |b| ensures Satisfies(b[k], row) {
        assert (a + b)[|a| + k] == b[k];
      }
      forall k | 0 <= k < |a| ensures Satisfies(a[k], row) {
        assert (a + b)[k] == a[k];
      }
    }
  }

  lemma MatchesSingleton(c: Conjunct, row: Row)
    ensures Matches([c], row) <==> Satisfies(c, row)
  {
    assert [c][0] == c;
  }

  /** The condition a non-null filter at field i becomes. */
  function ConditionAt(schema: Schema, filters: seq<Option<FilterValue>>, i: nat): Conjunct
    requires i < |filters| == |schema.fields| && filters[i].Some?
  {
    FieldCondition(i, schema.fields[i].builder, filters[i].value.spec)
  }

  /** A row satisfies the first n field conditions iff it satisfies the condition of each of
      the first n non-null filters. */
  lemma {:induction false} FieldConjunctsMatch(schema: Schema, filters: seq<Option<FilterValue>>, n: nat, row: Row)
    requires n <= |filters| == |schema.fields|
    ensures Matches(FieldConjuncts(schema, filters, n), row) <==>
      forall i :: 0 <= i < n && filters[i].Some? ==> Satisfies(ConditionAt(schema, filters, i), row)
  {
    if n > 0 {
      FieldConjunctsMatch(schema, filters, n - 1, row);
      LastFieldConjunct(schema, filters, n, row);
    }
  }

  /** The n-th field condition adds its own condition, if filter n - 1 is set, to the first
      n - 1. */
  lemma LastFieldConjunct(schema: Schema, filters: seq<Option<FilterValue>>, n: nat, row: Row)
    requires 0 < n <= |filters| == |schema.fields|
    ensures Matches(FieldConjuncts(schema, filters, n), row) <==>
      Matches(FieldConjuncts(schema, filters, n - 1), row) &&
      (filters[n - 1].Some? ==> Satisfies(ConditionAt(schema, filters, n - 1), row))
  {
    var prev := FieldConjuncts(schema, filters, n - 1);
    if filters[n - 1].Some? {
      var last := ConditionAt(schema, filters, n - 1);
      assert FieldConjuncts(schema, filters, n) == prev + [last];
      MatchesAppend(prev, [last], row);
      MatchesSingleton(last, row);
    } else {
      assert FieldConjuncts(schema, filters, n) == prev;
    }
  }

  /** A row matches a criteria value's specification iff it satisfies every non-null
      filter, whatever distinct is. */
  lemma MatchesIffEveryFilterHolds(schema: Schema, v: CriteriaValue, row: Row)
    requires |v.filters| == |schema.fields| == |row|
    ensures Matches(SpecificationOf(schema, v), row) <==>
      forall i :: 0 <= i < |row| && v.filters[i].Some? ==> FilterHolds(schema.fields[i].builder, v.filters[i].value.spec, row[i])
  {
    var head: Specification := if v.distinct.Some? then [Distinct(v.distinct.value)] else [];
    MatchesAppend(head, FieldConjuncts(schema, v.filters, |v.filters|), row);
    FieldConjunctsMatch(schema, v.filters, |v.filters|, row);
  }

  /** Every field condition belongs to a non-null filter and carries its field's builder and
      the filter's operators. */
  lemma {:induction false} FieldConjunctsAreConditions(schema: Schema, filters: seq<Option<FilterValue>>, n: nat)
    requires n <= |filters| == |schema.fields|
    ensures forall k :: 0 <= k < |FieldConjuncts(schema, filters, n)| ==>
      var c := FieldConjuncts(schema, filters, n)[k];
      c.FieldCondition? && c.field < n && filters[c.field].Some? && c == ConditionAt(schema, filters, c.field)
  {
    if n > 0 {
      FieldConjunctsAreConditions(schema, filters, n - 1);
      var prev := FieldConjuncts(schema, filters, n - 1);
      if filters[n - 1].Some? {
        var all := prev + [ConditionAt(schema, filters, n - 1)];
        assert FieldConjuncts(schema, filters, n) == all;
        forall k | 0 <= k < |prev| ensures all[k] == prev[k] { }
      } else {
        assert FieldConjuncts(schema, filters, n) == prev;
      }
    }
  }

  /** The field conditions come in strictly increasing field order, so none repeats. */
  lemma {:induction false} FieldConjunctsAreOrdered(schema: Schema, filters: seq<Option<FilterValue>>, n: nat)
    requires n <= |filters| == |schema.fields|
    ensures forall k, l :: 0 <= k < l < |FieldConjuncts(schema, filters, n)| ==>
      && FieldConjuncts(schema, filters, n)[k].FieldCondition?
      && FieldConjuncts(schema, filters, n)[l].FieldCondition?
      && FieldConjuncts(schema, filters, n)[k].field < FieldConjuncts(schema, filters, n)[l].field
  {
    FieldConjunctsAreConditions(schema, filters, n);
    if n > 0 {
      FieldConjunctsAreOrdered(schema, filters, n - 1);
      FieldConjunctsAreConditions(schema, filters, n - 1);
      var prev := FieldConjuncts(schema, filters, n - 1);
      var all := FieldConjuncts(schema, filters, n);
      if filters[n - 1].Some? {
        assert all == prev + [ConditionAt(schema, filters, n - 1)];
        forall k, l | 0 <= k < l < |all| ensures all[k].FieldCondition? && all[l].FieldCondition? && all[k].field < all[l].field {
          assert all[k] == prev[k];
          assert prev[k].field < n - 1;
          if l < |prev| {
            assert all[l] == prev[l];
          }
        }
      } else {
        assert all == prev;
      }
    }
  }

  /** Every non-null filter among the first n fields has its condition. */
  lemma {:induction false} FieldConjunctsAreComplete(schema: Schema, filters: seq<Option<FilterValue>>, n: nat)
    requires n <= |filters| == |schema.fields|
    ensures forall i :: 0 <= i < n && filters[i].Some? ==> ConditionAt(schema, filters, i) in FieldConjuncts(schema, filters, n)
  {
    if n > 0 {
      FieldConjunctsAreComplete(schema, filters, n - 1);
      var prev := FieldConjuncts(schema, filters, n - 1);
      if filters[n - 1].Some? {
        assert FieldConjuncts(schema, filters, n) == prev + [ConditionAt(schema, filters, n - 1)];
      } else {
        assert FieldConjuncts(schema, filters, n) == prev;
      }
    }
  }

  /** distinct, when set, is the first conjunct and the only Distinct one; when null there
      is none. */
  lemma DistinctComesFirst(schema: Schema, v: CriteriaValue)
    requires |v.filters| == |schema.fields|
    ensures var s := SpecificationOf(schema, v);
      && (v.distinct.Some? ==> s[0] == Distinct(v.distinct.value) && forall k :: 0 < k < |s| ==> s[k].FieldCondition?)
      && (v.distinct.None? ==> forall k :: 0 <= k < |s| ==> s[k].FieldCondition?)
  {
    FieldConjunctsAreConditions(schema, v.filters, |v.filters|);
    var head: Specification := if v.distinct.Some? then [Distinct(v.distinct.value)] else [];
    var fields := FieldConjuncts(schema, v.filters, |v.filters|);
    assert SpecificationOf(schema, v) == head + fields;
    forall k | |head| <= k < |head + fields| ensures (head + fields)[k].FieldCondition? {
      assert (head + fields)[k] == fields[k - |head|];
    }
  }

  /** distinct only reaches the query; it never changes which rows match. */
  lemma DistinctDoesNotFilter(schema: Schema, v: CriteriaValue, d: Option<bool>, row: Row)
    requires |v.filters| == |schema.fields| == |row|
    ensures Matches(SpecificationOf(schema, v.(distinct := d)), row) == Matches(SpecificationOf(schema, v), row)
  {
    MatchesIffEveryFilterHolds(schema, v, row);
    MatchesIffEveryFilterHolds(schema, v.(distinct := d), row);
  }

  /** With only field i set, a row matches iff that one filter holds on its column. */
  lemma OnlyFieldMatches(schema: Schema, i: nat, spec: FilterSpec, row: Row)
    requires i < |schema.fields| == |row|
    ensures Matches(SpecificationOf(schema, OnlyField(schema, i, spec)), row) <==> FilterHolds(schema.fields[i].builder, spec, row[i])
  {
    MatchesIffEveryFilterHolds(schema, OnlyField(schema, i, spec), row);
  }

  /** On a table of one row, find returns that row or nothing, and count is 1 or 0
      accordingly. */
  lemma OneRowTable<R>(s: Specification, view: R -> Row, x: R)
    ensures Find(s, view, [x]) == (if Matches(s, view(x)) then [x] else [])
    ensures Count(s, view, [x]) == (if Matches(s, view(x)) then 1 else 0)
  {
    assert [x][1..] == [];
  }

  /** findByCriteria: the rows the criteria's specification matches, in table order. */
  method FindByCriteria<R>(criteria: Criteria?, view: R -> Row, rows: seq<R>) returns (found: seq<R>)
    requires criteria != null ==> criteria.Valid()
    ensures criteria == null ==> found == rows
    ensures criteria != null ==> found == Find(SpecificationOf(criteria.schema, criteria.Value()), view, rows)
  {
    var s := CreateSpecification(criteria);
    if criteria == null {
      EmptySpecificationFindsAll(view, rows);
    }
    found := Find(s, view, rows);
  }

  /** countByCriteria: the number of rows findByCriteria returns for the same criteria. */
  method CountByCriteria<R>(criteria: Criteria?, view: R -> Row, rows: seq<R>) returns (n: nat)
    requires criteria != null ==> criteria.Valid()
    ensures criteria == null ==> n == |rows|
    ensures criteria != null ==> n == |Find(SpecificationOf(criteria.schema, criteria.Value()), view, rows)|
  {
    var s := CreateSpecification(criteria);
    n := Count(s, view, rows);
    CountIsSizeOfFind(s, view, rows);
    if criteria == null {
      EmptySpecificationFindsAll(view, rows);
    }
  }

  /** findByCriteria(criteria, page): the requested page of what findByCriteria(criteria)
      returns, with the number of all matching rows as its total. */
  method FindPageByCriteria<R>(criteria: Criteria?, view: R -> Row, rows: seq<R>, page: Pageable) returns (p: Page<R>)
    requires criteria != null ==> criteria.Valid()
    ensures criteria == null ==> p == PageOf(rows, page)
    ensures criteria != null ==> p == PageOf(Find(SpecificationOf(criteria.schema, criteria.Value()), view, rows), page)
  {
    var all := FindByCriteria(criteria, view, rows);
    p := PageOf(all, page);
  }
}

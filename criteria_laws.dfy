/** What the criteria classes' accessors, copy, equals, hashCode and toString guarantee,
    for every schema. */
module CriteriaLaws {
  import opened JavaLang
  import opened Filters
  import opened CriteriaClasses

  /** equals compares the class and the value field by field, in both directions. */
  lemma EqualsIffSameValue(c: Criteria, d: Criteria)
    requires c.Valid() && d.Valid()
    ensures c.Equals(d) <==> c.schema == d.schema && c.Value() == d.Value()
  {
    if c.Equals(d) && c != d {
      assert c.Value().filters == d.Value().filters by {
        forall i | 0 <= i < |c.filters| ensures ValueOf(c.filters[i]) == ValueOf(d.filters[i]) {
          assert FilterFieldsEqual(c.filters[i], d.filters[i]);
        }
      }
    }
    if c.schema == d.schema && c.Value() == d.Value() {
      forall i | 0 <= i < |c.filters| ensures FilterFieldsEqual(c.filters[i], d.filters[i]) {
        assert c.Value().filters[i] == d.Value().filters[i];
        assert ValueOf(c.filters[i]) == ValueOf(d.filters[i]);
      }
    }
  }

  /** Equal criteria objects hash equally, whatever the filter classes' hashCode is. */
  lemma EqualsImpliesSameHash(c: Criteria, d: Criteria, filterHash: FilterValue -> int32)
    requires c.Valid() && d.Valid() && c.Equals(d)
    ensures c.HashCode(filterHash) == d.HashCode(filterHash)
  {
    EqualsIffSameValue(c, d);
  }

  /** equals is symmetric and transitive on well-formed criteria objects. */
  lemma EqualsIsEquivalence(c: Criteria, d: Criteria, e: Criteria)
    requires c.Valid() && d.Valid() && e.Valid()
    ensures c.Equals(c)
    ensures c.Equals(d) <==> d.Equals(c)
    ensures c.Equals(d) && d.Equals(e) ==> c.Equals(e)
  {
    EqualsIffSameValue(c, d);
    EqualsIffSameValue(d, c);
    EqualsIffSameValue(d, e);
    EqualsIffSameValue(c, e);
  }

  /** copy() equals the original in both directions, and so hashes the same. */
  method CopyEqualsOriginal(c: Criteria, filterHash: FilterValue -> int32) returns (d: Criteria)
    requires c.Valid()
    ensures fresh(d) && d.Valid()
    ensures d.Equals(c) && c.Equals(d) && d != c
    ensures d.HashCode(filterHash) == c.HashCode(filterHash)
  {
    d := c.Copy();
    EqualsIffSameValue(d, c);
    EqualsIffSameValue(c, d);
  }

  /** A second call of a lazy accessor returns the filter the first call returned and changes
      nothing. */
  method LazyIsIdempotent(c: Criteria, i: nat) returns (first: Filter, second: Filter)
    requires c.Valid() && i < |c.schema.fields|
    modifies c`filters
    ensures c.Valid() && first == second && c.filters[i] == first
  {
    first := c.Lazy(i);
    ghost var afterFirst := c.filters;
    second := c.Lazy(i);
    assert c.filters == afterFirst;
  }

  /** The fields part of toString splits at any point: fields are printed in declaration
      order. */
  lemma {:induction false} FieldsStringAppend(f1: seq<FieldDecl>, v1: seq<Option<FilterValue>>,
                                              f2: seq<FieldDecl>, v2: seq<Option<FilterValue>>,
                                              show: FilterValue -> string)
    requires |f1| == |v1| && |f2| == |v2|
    ensures FieldsString(f1 + f2, v1 + v2, show) == FieldsString(f1, v1, show) + FieldsString(f2, v2, show)
    decreases |f1|
  {
    if f1 != [] {
      assert (f1 + f2)[1..] == f1[1..] + f2;
      assert (v1 + v2)[1..] == v1[1..] + v2;
      FieldsStringAppend(f1[1..], v1[1..], f2, v2, show);
    } else {
      assert f1 + f2 == f2 && v1 + v2 == v2;
    }
  }

  /** Null fields print nothing. */
  lemma {:induction false} FieldsStringOfNulls(fields: seq<FieldDecl>, values: seq<Option<FilterValue>>,
                                               show: FilterValue -> string)
    requires |fields| == |values| && forall i :: 0 <= i < |values| ==> values[i].None?
    ensures FieldsString(fields, values, show) == ""
    decreases |fields|
  {
    if fields != [] {
      FieldsStringOfNulls(fields[1..], values[1..], show);
    }
  }

  /** With only field i set, the fields part is exactly "name=value, " for that field. */
  lemma {:induction false} FieldsStringOfOne(fields: seq<FieldDecl>, values: seq<Option<FilterValue>>,
                                             show: FilterValue -> string, i: nat)
    requires |fields| == |values| && i < |values| && values[i].Some?
    requires forall j :: 0 <= j < |values| && j != i ==> values[j].None?
    ensures FieldsString(fields, values, show) == fields[i].name + "=" + show(values[i].value) + ", "
    decreases |fields|
  {
    if i == 0 {
      FieldsStringOfNulls(fields[1..], values[1..], show);
    } else {
      FieldsStringOfOne(fields[1..], values[1..], show, i - 1);
    }
  }

  /** An empty criteria object prints as its class name followed by "{}". */
  lemma RenderEmpty(schema: Schema, show: FilterValue -> string)
    ensures Render(schema, EmptyValue(schema), show) == schema.className + "{}"
  {
    FieldsStringOfNulls(schema.fields, EmptyValue(schema).filters, show);
  }

  /** A criteria value with only field i set. */
  function OnlyField(schema: Schema, i: nat, spec: FilterSpec): (v: CriteriaValue)
    requires i < |schema.fields|
    ensures |v.filters| == |schema.fields| && v.distinct.None?
    ensures v.filters[i] == Some(FilterValue(schema.fields[i].kind, spec))
    ensures forall j :: 0 <= j < |v.filters| && j != i ==> v.filters[j].None?
  {
    EmptyValue(schema).(filters := EmptyValue(schema).filters[i := Some(FilterValue(schema.fields[i].kind, spec))])
  }

  /** With only field i set, toString prints that field alone, trailing ", " included. */
  lemma RenderOnlyField(schema: Schema, i: nat, spec: FilterSpec, show: FilterValue -> string)
    requires i < |schema.fields|
    ensures Render(schema, OnlyField(schema, i, spec), show) ==
      schema.className + "{" + schema.fields[i].name + "=" + show(FilterValue(schema.fields[i].kind, spec)) + ", }"
  {
    var v := OnlyField(schema, i, spec);
    FieldsStringOfOne(schema.fields, v.filters, show, i);
  }

  /** A fresh criteria object prints as its class name followed by "{}". */
  method FreshToString(schema: Schema, show: FilterValue -> string) returns (s: string)
    ensures s == schema.className + "{}"
  {
    var c := new Criteria(schema);
    RenderEmpty(schema, show);
    s := c.ToString(show);
  }
}

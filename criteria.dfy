/** The five *Criteria classes. They differ only in their class name and their list of filter
    fields, so one class carries a Schema naming both: every field is a nullable filter
    object, plus a nullable Boolean distinct. */
module CriteriaClasses {
  import opened JavaLang
  import opened Filters

  /** A filter field: its name, its filter class and the QueryService builder it goes to. */
  datatype FieldDecl = FieldDecl(name: string, kind: FilterKind, builder: Builder)

  /** A criteria class: its simple name and its filter fields in declaration order. */
  datatype Schema = Schema(className: string, fields: seq<FieldDecl>)

  /** The value a filter field holds: null, or a filter's class and operators. */
  datatype FilterValue = FilterValue(kind: FilterKind, spec: FilterSpec)

  /** The value of a whole criteria object, field by field, then distinct. */
  datatype CriteriaValue = CriteriaValue(filters: seq<Option<FilterValue>>, distinct: Option<bool>)

  function ValueOf(f: Filter?): (v: Option<FilterValue>)
    reads f
    ensures v.None? <==> f == null
    ensures f != null ==> v.value.kind == f.kind && v.value.spec == f.spec
  {
    if f == null then None else Some(FilterValue(f.kind, f.spec))
  }

  /** n null fields. */
  function NullFields(n: nat): (r: seq<Filter?>)
    ensures |r| == n && forall i :: 0 <= i < n ==> r[i] == null
  {
    seq(n, _ => null)
  }

  /** A criteria value with every field null and distinct null: new XCriteria(). */
  function EmptyValue(schema: Schema): (v: CriteriaValue)
    ensures |v.filters| == |schema.fields| && v.distinct.None?
    ensures forall i :: 0 <= i < |v.filters| ==> v.filters[i].None?
  {
    CriteriaValue(seq(|schema.fields|, _ => None), None)
  }

  class Criteria {
    const schema: Schema
    var filters: seq<Filter?>
    var distinct: Option<bool>

    /** One slot per field, each null or a well-formed filter of the field's class. */
    ghost predicate Valid()
      reads this, filters
    {
      && |filters| == |schema.fields|
      && forall i :: 0 <= i < |filters| && filters[i] != null ==>
           filters[i].kind == schema.fields[i].kind && filters[i].Valid()
    }

    /** new XCriteria(): every field null. */
    constructor (schema: Schema)
      ensures this.schema == schema && filters == NullFields(|schema.fields|) && distinct.None?
      ensures Valid() && Value() == EmptyValue(schema)
    {
      this.schema := schema;
      filters := NullFields(|schema.fields|);
      distinct := None;
      new;
      assert Value().filters == EmptyValue(schema).filters;
    }

    /** What the object holds, independent of object identity. */
    function Value(): (v: CriteriaValue)
      reads this, filters
      ensures |v.filters| == |filters| && v.distinct == distinct
      ensures forall i :: 0 <= i < |filters| ==> v.filters[i] == ValueOf(filters[i])
    {
      var fs := filters;
      CriteriaValue(seq(|fs|, i reads fs requires 0 <= i < |fs| => ValueOf(fs[i])), distinct)
    }

    /** The plain getter getX(): the field as it is; a function, so it never allocates. */
    function Get(i: nat): (f: Filter?)
      requires i < |filters|
      reads this
      ensures f == filters[i]
    {
      filters[i]
    }

    /** The lazy accessor x(): create the filter when the field is null, then return the field. */
    method Lazy(i: nat) returns (f: Filter)
      requires Valid() && i < |schema.fields|
      modifies this`filters
      ensures Valid()
      ensures old(filters[i]) != null ==> f == old(filters[i]) && filters == old(filters)
      ensures old(filters[i]) == null ==>
        fresh(f) && f.kind == schema.fields[i].kind && f.spec == NoOperators && filters == old(filters)[i := f]
    {
      if filters[i] == null {
        var created := new Filter(schema.fields[i].kind);
        filters := filters[i := created];
      }
      f := filters[i];
    }

    /** The setter setX(filter). */
    method Set(i: nat, f: Filter?)
      requires Valid() && i < |schema.fields|
      requires f != null ==> f.kind == schema.fields[i].kind && f.Valid()
      modifies this`filters
      ensures filters == old(filters)[i := f] && Valid()
    {
      filters := filters[i := f];
    }

    method SetDistinct(d: Option<bool>)
      modifies this`distinct
      ensures distinct == d
    {
      distinct := d;
    }

    /** The copy constructor new XCriteria(other), which copy() calls: a null field stays
        null, a filter becomes its copy(), distinct is copied as it is. */
    method Copy() returns (c: Criteria)
      requires Valid()
      ensures fresh(c) && c.schema == schema && c.Valid()
      ensures c.Value() == Value()
      ensures forall i :: 0 <= i < |c.filters| ==> (c.filters[i] == null <==> filters[i] == null)
      ensures forall i :: 0 <= i < |c.filters| && c.filters[i] != null ==> fresh(c.filters[i])
    {
      c := new Criteria(schema);
      var i := 0;
      while i < |filters|
        invariant 0 <= i <= |filters| == |c.filters|
        invariant fresh(c) && c.schema == schema
        invariant forall j :: 0 <= j < |c.filters| && c.filters[j] != null ==>
          fresh(c.filters[j]) && c.filters[j].Valid() && c.filters[j].kind == schema.fields[j].kind
        invariant forall j :: 0 <= j < i ==> ValueOf(c.filters[j]) == ValueOf(filters[j])
        invariant forall j :: i <= j < |c.filters| ==> c.filters[j] == null
      {
        if filters[i] != null {
          var f := filters[i].Copy();
          c.filters := c.filters[i := f];
        }
        i := i + 1;
      }
      c.distinct := distinct;
      assert c.Value().filters == Value().filters;
    }

    /** equals: the same object, or an object of the same class whose fields are pairwise
        Objects.equals, distinct included. */
    predicate Equals(o: object?)
      reads this, filters, o, FiltersOf(o)
      ensures this == o ==> Equals(o)
      ensures Equals(o) && this != o ==> o is Criteria && (o as Criteria).schema == schema
    {
      this == o ||
      (o is Criteria
       && (o as Criteria).schema == schema
       && |filters| == |(o as Criteria).filters|
       && (forall i :: 0 <= i < |filters| ==> FilterFieldsEqual(filters[i], (o as Criteria).filters[i]))
       && distinct == (o as Criteria).distinct)
    }

    /** hashCode: Objects.hash of every field in declaration order, distinct last; the filter
        classes' own hashCode is the parameter. */
    function HashCode(filterHash: FilterValue -> int32): int32
      reads this, filters
    {
      HashOf(Value(), filterHash)
    }

    /** toString; the filter classes' own toString is the parameter. */
    function ToString(show: FilterValue -> string): (r: string)
      requires Valid()
      reads this, filters
      ensures |r| >= |schema.className| + 2
      ensures r[..|schema.className| + 1] == schema.className + "{" && r[|r| - 1] == '}'
    {
      Render(schema, Value(), show)
    }
  }

  /** The filter fields of o when o is a criteria object. */
  function FiltersOf(o: object?): seq<Filter?>
    reads o
  {
    if o is Criteria then (o as Criteria).filters else []
  }

  /** Objects.hash(f1, ..., fn, distinct). */
  function HashOf(v: CriteriaValue, filterHash: FilterValue -> int32): int32 {
    var fieldHashes := seq(|v.filters|, i requires 0 <= i < |v.filters| =>
                           if v.filters[i].None? then 0 else filterHash(v.filters[i].value));
    ObjectsHash(fieldHashes + [NullableBooleanHash(v.distinct)])
  }

  /** "name=value, " for each non-null field, in declaration order; nothing when every
      field is null. */
  function FieldsString(fields: seq<FieldDecl>, values: seq<Option<FilterValue>>, show: FilterValue -> string): (r: string)
    requires |fields| == |values|
    ensures (forall i :: 0 <= i < |values| ==> values[i].None?) ==> r == ""
    decreases |fields|
  {
    if fields == [] then ""
    else
      (if values[0].Some? then fields[0].name + "=" + show(values[0].value) + ", " else "")
      + FieldsString(fields[1..], values[1..], show)
  }

  /** The toString of a criteria value: the class name, "{", each non-null field as
      "name=value, ", distinct the same way, then "}". */
  function Render(schema: Schema, v: CriteriaValue, show: FilterValue -> string): string
    requires |v.filters| == |schema.fields|
  {
    schema.className + "{" + FieldsString(schema.fields, v.filters, show)
    + (if v.distinct.Some? then "distinct=" + BooleanString(v.distinct.value) + ", " else "")
    + "}"
  }
}

/** The JHipster filter objects a criteria class holds, and how QueryService turns one into
    a condition on a column. tech.jhipster.service.filter and tech.jhipster.service.QueryService
    are library code outside this repository; the semantics below follow that library:
    a set equals wins over everything, else a set in wins, else all other set operators are
    conjoined; every comparison is SQL, so a null column satisfies no comparison, only
    specified = false. */
module Filters {
  import opened JavaLang
  import opened Records

  /** A value a filter compares a column with. Dates are epoch days. */
  datatype Value =
    | UuidValue(uuid: Uuid)
    | StringValue(text: string)
    | IntValue(number: int)
    | DateValue(epochDay: int)
    | BoolValue(flag: bool)
    | StatusValue(status: CategoryStatus)

  /** The filter class of a criteria field. */
  datatype FilterKind =
    | UuidFilter
    | StringFilter
    | IntegerFilter
    | LocalDateFilter
    | BooleanFilter
    | CategoryStatusFilter

  /** The operator fields of the filter classes; a filter sets only those of its class. */
  datatype FilterSpec = FilterSpec(
    equals: Option<Value>,
    notEquals: Option<Value>,
    specified: Option<bool>,
    in_: Option<seq<Value>>,
    notIn: Option<seq<Value>>,
    greaterThan: Option<Value>,
    lessThan: Option<Value>,
    greaterThanOrEqual: Option<Value>,
    lessThanOrEqual: Option<Value>,
    contains: Option<string>,
    doesNotContain: Option<string>)

  /** A freshly constructed filter: no operator set. */
  const NoOperators := FilterSpec(None, None, None, None, None, None, None, None, None, None, None)

  /** v is a value of the type a filter of this class compares. */
  predicate ValueOfKind(kind: FilterKind, v: Value) {
    match kind
    case UuidFilter => v.UuidValue?
    case StringFilter => v.StringValue?
    case IntegerFilter => v.IntValue?
    case LocalDateFilter => v.DateValue?
    case BooleanFilter => v.BoolValue?
    case CategoryStatusFilter => v.StatusValue?
  }

  predicate OptionOfKind(kind: FilterKind, v: Option<Value>) {
    v.Some? ==> ValueOfKind(kind, v.value)
  }

  predicate ListOfKind(kind: FilterKind, vs: Option<seq<Value>>) {
    vs.Some? ==> forall i :: 0 <= i < |vs.value| ==> ValueOfKind(kind, vs.value[i])
  }

  /** StringFilter adds contains and doesNotContain to Filter; IntegerFilter and
      LocalDateFilter are RangeFilters, which add the four comparisons. */
  predicate IsRangeKind(kind: FilterKind) {
    kind == IntegerFilter || kind == LocalDateFilter
  }

  /** spec sets only operators that the filter class has, with values of its type. */
  predicate Fits(kind: FilterKind, spec: FilterSpec) {
    && OptionOfKind(kind, spec.equals) && OptionOfKind(kind, spec.notEquals)
    && ListOfKind(kind, spec.in_) && ListOfKind(kind, spec.notIn)
    && (IsRangeKind(kind) || (spec.greaterThan.None? && spec.lessThan.None?
                              && spec.greaterThanOrEqual.None? && spec.lessThanOrEqual.None?))
    && OptionOfKind(kind, spec.greaterThan) && OptionOfKind(kind, spec.lessThan)
    && OptionOfKind(kind, spec.greaterThanOrEqual) && OptionOfKind(kind, spec.lessThanOrEqual)
    && (kind == StringFilter || (spec.contains.None? && spec.doesNotContain.None?))
  }

  /** A filter object: its class is fixed, its operators are set through the library's
      setters. */
  class Filter {
    const kind: FilterKind
    var spec: FilterSpec

    ghost predicate Valid()
      reads this
    {
      Fits(kind, spec)
    }

    /** The no-argument constructor of the filter class. */
    constructor (kind: FilterKind)
      ensures this.kind == kind && spec == NoOperators && Valid()
    {
      this.kind := kind;
      spec := NoOperators;
    }

    /** The copy constructor, e.g. new CategoryStatusFilter(filter), which is super(filter). */
    constructor From(kind: FilterKind, spec: FilterSpec)
      ensures this.kind == kind && this.spec == spec
    {
      this.kind := kind;
      this.spec := spec;
    }

    /** copy(): a new filter of the same class with the same operators. */
    method Copy() returns (f: Filter)
      requires Valid()
      ensures fresh(f) && f.kind == kind && f.spec == spec && f.Valid()
    {
      f := new Filter.From(kind, spec);
    }

    /** The library's operator setters (setEquals, setIn, ...) taken together. */
    method SetOperators(spec: FilterSpec)
      requires Fits(kind, spec)
      modifies this`spec
      ensures this.spec == spec && Valid()
    {
      this.spec := spec;
    }

    /** Filter.equals and its subclasses' overrides: the same class and equal operators. */
    predicate Equals(o: Filter?)
      reads this, o
    {
      this == o || (o != null && kind == o.kind && spec == o.spec)
    }
  }

  /** Objects.equals(a, b) on two filter fields. */
  predicate FilterFieldsEqual(a: Filter?, b: Filter?)
    reads a, b
  {
    a == b || (a != null && a.Equals(b))
  }

  /** Which QueryService builder a criteria field is passed to. */
  datatype Builder =
    | Plain   // buildSpecification(Filter, ...)
    | Text    // buildStringSpecification(StringFilter, ...)
    | Range   // buildRangeSpecification(RangeFilter, ...)

  /** One comparison that a builder emits. */
  datatype Op =
    | Eq(value: Value)
    | In(values: seq<Value>)
    | IsSpecified(present: bool)
    | NotEq(value: Value)
    | NotIn(values: seq<Value>)
    | Greater(value: Value)
    | GreaterOrEqual(value: Value)
    | Less(value: Value)
    | LessOrEqual(value: Value)
    | Like(text: string)
    | NotLike(text: string)

  /** The comparisons a builder emits for a filter: equals alone if set, else in alone if
      set, else one per other operator that is set and that the builder handles. */
  function Operators(b: Builder, f: FilterSpec): (ops: seq<Op>)
    ensures f.equals.Some? ==> ops == [Eq(f.equals.value)]
    ensures f.equals.None? && f.in_.Some? ==> ops == [In(f.in_.value)]
    ensures |ops| <= 9
  {
    if f.equals.Some? then [Eq(f.equals.value)]
    else if f.in_.Some? then [In(f.in_.value)]
    else
      var common :=
        (if f.specified.Some? then [IsSpecified(f.specified.value)] else [])
        + (if f.notEquals.Some? then [NotEq(f.notEquals.value)] else [])
        + (if f.notIn.Some? then [NotIn(f.notIn.value)] else []);
      match b
      case Plain => common
      case Text =>
        common
        + (if f.contains.Some? then [Like(f.contains.value)] else [])
        + (if f.doesNotContain.Some? then [NotLike(f.doesNotContain.value)] else [])
      case Range =>
        common
        + (if f.greaterThan.Some? then [Greater(f.greaterThan.value)] else [])
        + (if f.greaterThanOrEqual.Some? then [GreaterOrEqual(f.greaterThanOrEqual.value)] else [])
        + (if f.lessThan.Some? then [Less(f.lessThan.value)] else [])
        + (if f.lessThanOrEqual.Some? then [LessOrEqual(f.lessThanOrEqual.value)] else [])
  }

  /** The order of comparable values: integers and dates, each among their own kind. */
  predicate Before(a: Value, b: Value) {
    (a.IntValue? && b.IntValue? && a.number < b.number)
    || (a.DateValue? && b.DateValue? && a.epochDay < b.epochDay)
  }

  /** upper() in SQL and toUpperCase() in Java, on the ASCII letters. */
  function UpperChar(c: char): char {
    if 'a' <= c <= 'z' then (c as int - 32) as char else c
  }

  function Upper(s: string): (r: string)
    ensures |r| == |s| && forall i :: 0 <= i < |s| ==> r[i] == UpperChar(s[i])
  {
    seq(|s|, i requires 0 <= i < |s| => UpperChar(s[i]))
  }

  /** needle occurs in hay at some position. */
  predicate IsInfix(needle: string, hay: string)
    decreases |hay|
  {
    needle <= hay || (hay != [] && IsInfix(needle, hay[1..]))
  }

  /** upper(column) like '%' + value.toUpperCase() + '%'. */
  predicate LikeUpper(text: string, column: string) {
    IsInfix(Upper(text), Upper(column))
  }

  /** One comparison on one column value, with SQL's null semantics. */
  predicate OpHolds(op: Op, v: Option<Value>) {
    match op
    case Eq(x) => v == Some(x)
    case In(xs) => v.Some? && v.value in xs
    case IsSpecified(present) => v.Some? == present
    case NotEq(x) => v.Some? && v.value != x
    case NotIn(xs) => v.Some? && v.value !in xs
    case Greater(x) => v.Some? && Before(x, v.value)
    case GreaterOrEqual(x) => v.Some? && (v.value == x || Before(x, v.value))
    case Less(x) => v.Some? && Before(v.value, x)
    case LessOrEqual(x) => v.Some? && (v.value == x || Before(v.value, x))
    case Like(s) => v.Some? && v.value.StringValue? && LikeUpper(s, v.value.text)
    case NotLike(s) => v.Some? && v.value.StringValue? && !LikeUpper(s, v.value.text)
  }

  /** A filter holds for an entity whose column, reached along its path, takes the values in
      column: a plain attribute has one value, a to-many join one per joined entity and a
      single null when there is none. Each comparison calls the path again, so on a join each
      comparison may be met by a different joined entity. */
  predicate FilterHolds(b: Builder, f: FilterSpec, column: set<Option<Value>>) {
    AllHold(Operators(b, f), column)
  }

  /** Each comparison is met by some value of the column. */
  predicate AllHold(ops: seq<Op>, column: set<Option<Value>>) {
    forall k :: 0 <= k < |ops| ==> exists v :: v in column && OpHolds(ops[k], v)
  }

  /** A single comparison holds on a column iff some value meets it. */
  lemma AllHoldOne(op: Op, column: set<Option<Value>>)
    ensures AllHold([op], column) <==> exists v :: v in column && OpHolds(op, v)
  {
    if exists v :: v in column && OpHolds(op, v) {
      var v :| v in column && OpHolds(op, v);
      forall k | 0 <= k < |[op]| ensures exists w :: w in column && OpHolds([op][k], w) {
        assert [op][k] == op;
        assert v in column && OpHolds([op][k], v);
      }
    }
    if AllHold([op], column) {
      assert 0 <= 0 < |[op]|;
      assert exists w :: w in column && OpHolds([op][0], w);
      assert [op][0] == op;
    }
  }

  /** On a single-valued column a filter holds iff each comparison holds for that value. */
  lemma SingleValuedColumn(b: Builder, f: FilterSpec, v: Option<Value>)
    ensures FilterHolds(b, f, {v}) <==> forall op :: op in Operators(b, f) ==> OpHolds(op, v)
  {
    var ops := Operators(b, f);
    if FilterHolds(b, f, {v}) {
      forall op | op in ops ensures OpHolds(op, v) {
        var k :| 0 <= k < |ops| && ops[k] == op;
        var w :| w in {v} && OpHolds(ops[k], w);
      }
    }
  }

  /** A set equals decides alone: the column must hold exactly that value, whatever else is set. */
  lemma EqualsTakesPrecedence(b: Builder, f: FilterSpec, column: set<Option<Value>>)
    requires f.equals.Some?
    ensures FilterHolds(b, f, column) <==> Some(f.equals.value) in column
  {
    var ops := Operators(b, f);
    assert ops == [Eq(f.equals.value)];
    AllHoldOne(Eq(f.equals.value), column);
    if FilterHolds(b, f, column) {
      var v :| v in column && OpHolds(Eq(f.equals.value), v);
    }
    if Some(f.equals.value) in column {
      assert OpHolds(Eq(f.equals.value), Some(f.equals.value));
    }
  }

  /** Without equals, a set in decides alone. */
  lemma InTakesPrecedence(b: Builder, f: FilterSpec, column: set<Option<Value>>)
    requires f.equals.None? && f.in_.Some?
    ensures FilterHolds(b, f, column) <==> exists x :: x in f.in_.value && Some(x) in column
  {
    var ops := Operators(b, f);
    assert ops == [In(f.in_.value)];
    AllHoldOne(In(f.in_.value), column);
    if FilterHolds(b, f, column) {
      var v :| v in column && OpHolds(In(f.in_.value), v);
      assert v.value in f.in_.value && Some(v.value) in column;
    }
    if exists x :: x in f.in_.value && Some(x) in column {
      var x :| x in f.in_.value && Some(x) in column;
      assert OpHolds(In(f.in_.value), Some(x));
    }
  }

  /** A filter with no operator set holds for every entity. */
  lemma EmptyFilterHoldsEverywhere(b: Builder, column: set<Option<Value>>)
    ensures FilterHolds(b, NoOperators, column)
  {
    assert Operators(b, NoOperators) == [];
  }

  /** The plain builder ignores range and string operators: status and restricted filters,
      which go to buildSpecification, never compare by order or by substring. */
  lemma PlainIgnoresRangeAndText(f: FilterSpec, g: FilterSpec, column: set<Option<Value>>)
    requires f.equals == g.equals && f.in_ == g.in_ && f.specified == g.specified
    requires f.notEquals == g.notEquals && f.notIn == g.notIn
    ensures FilterHolds(Plain, f, column) <==> FilterHolds(Plain, g, column)
  {
    assert Operators(Plain, f) == Operators(Plain, g);
  }

  /** A null column satisfies only a specified = false filter among the single comparisons. */
  lemma NullColumn(op: Op)
    ensures OpHolds(op, None) <==> op == IsSpecified(false)
  {
  }
}

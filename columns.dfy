/** What a filter sees of one criteria field: a plain attribute and a to-one LEFT join
    give one value, null when the column or the association is null; a to-many LEFT join
    gives one value per joined entity, or a single null when nothing is joined. */
module Columns {
  import opened JavaLang
  import opened Filters
  import opened Records

  type Column = set<Option<Value>>

  /** One nullable value. */
  function Attribute(v: Option<Value>): Column {
    {v}
  }

  function UuidColumn(o: Option<Uuid>): Column {
    if o.Some? then {Some(UuidValue(o.value))} else {None}
  }

  function StringColumn(o: Option<string>): Column {
    if o.Some? then {Some(StringValue(o.value))} else {None}
  }

  function IntColumn(o: Option<int>): Column {
    if o.Some? then {Some(IntValue(o.value))} else {None}
  }

  function DateColumn(o: Option<int>): Column {
    if o.Some? then {Some(DateValue(o.value))} else {None}
  }

  function BoolColumn(o: Option<bool>): Column {
    if o.Some? then {Some(BoolValue(o.value))} else {None}
  }

  function StatusColumn(o: Option<CategoryStatus>): Column {
    if o.Some? then {Some(StatusValue(o.value))} else {None}
  }

  /** root.join(association, JoinType.LEFT).get(id) over a collection: the joined ids, or a
      single null row when the collection is empty. */
  function ToMany(ids: set<Uuid>): (c: Column)
    ensures None in c <==> ids == {}
    ensures forall u :: Some(UuidValue(u)) in c <==> u in ids
    ensures forall v :: v in c && v.Some? ==> v.value.UuidValue? && v.value.uuid in ids
  {
    if ids == {} then {None} else set u | u in ids :: Some(UuidValue(u))
  }

  /** Filters with one operator set, as a request parameter such as rating.lessThan=2
      builds them. */
  function IsEqualTo(x: Value): FilterSpec { NoOperators.(equals := Some(x)) }
  function IsNotEqualTo(x: Value): FilterSpec { NoOperators.(notEquals := Some(x)) }
  function IsIn(xs: seq<Value>): FilterSpec { NoOperators.(in_ := Some(xs)) }
  function IsSpecifiedAs(b: bool): FilterSpec { NoOperators.(specified := Some(b)) }
  function IsGreaterThan(x: Value): FilterSpec { NoOperators.(greaterThan := Some(x)) }
  function IsGreaterThanOrEqual(x: Value): FilterSpec { NoOperators.(greaterThanOrEqual := Some(x)) }
  function IsLessThan(x: Value): FilterSpec { NoOperators.(lessThan := Some(x)) }
  function IsLessThanOrEqual(x: Value): FilterSpec { NoOperators.(lessThanOrEqual := Some(x)) }
  function Contains(s: string): FilterSpec { NoOperators.(contains := Some(s)) }
  function DoesNotContain(s: string): FilterSpec { NoOperators.(doesNotContain := Some(s)) }

  /** A filter that emits one comparison holds on a column iff some value meets it. */
  lemma OneComparison(b: Builder, f: FilterSpec, op: Op, column: Column)
    requires Operators(b, f) == [op]
    ensures FilterHolds(b, f, column) <==> exists v :: v in column && OpHolds(op, v)
  {
    AllHoldOne(op, column);
  }

  /** On a single value, such a filter holds iff the value meets the comparison. */
  lemma OneComparisonOnValue(b: Builder, f: FilterSpec, op: Op, v: Option<Value>)
    requires Operators(b, f) == [op]
    ensures FilterHolds(b, f, Attribute(v)) <==> OpHolds(op, v)
  {
    OneComparison(b, f, op, {v});
  }

  // One lemma per comparison keeps each proof small.

  lemma EqualsOnValue(b: Builder, v: Option<Value>, x: Value)
    ensures FilterHolds(b, IsEqualTo(x), Attribute(v)) <==> v == Some(x)
  {
    OneComparisonOnValue(b, IsEqualTo(x), Eq(x), v);
  }

  lemma NotEqualsOnValue(b: Builder, v: Option<Value>, x: Value)
    ensures FilterHolds(b, IsNotEqualTo(x), Attribute(v)) <==> v.Some? && v.value != x
  {
    OneComparisonOnValue(b, IsNotEqualTo(x), NotEq(x), v);
  }

  lemma InOnValue(b: Builder, v: Option<Value>, xs: seq<Value>)
    ensures FilterHolds(b, IsIn(xs), Attribute(v)) <==> v.Some? && v.value in xs
  {
    OneComparisonOnValue(b, IsIn(xs), In(xs), v);
  }

  lemma SpecifiedOnValue(b: Builder, v: Option<Value>, present: bool)
    ensures FilterHolds(b, IsSpecifiedAs(present), Attribute(v)) <==> (v.Some? <==> present)
  {
    OneComparisonOnValue(b, IsSpecifiedAs(present), IsSpecified(present), v);
  }

  lemma GreaterThanOnValue(v: Option<Value>, x: Value)
    ensures FilterHolds(Range, IsGreaterThan(x), Attribute(v)) <==> v.Some? && Before(x, v.value)
  {
    OneComparisonOnValue(Range, IsGreaterThan(x), Greater(x), v);
  }

  lemma GreaterThanOrEqualOnValue(v: Option<Value>, x: Value)
    ensures FilterHolds(Range, IsGreaterThanOrEqual(x), Attribute(v)) <==> v.Some? && (v.value == x || Before(x, v.value))
  {
    OneComparisonOnValue(Range, IsGreaterThanOrEqual(x), GreaterOrEqual(x), v);
  }

  lemma LessThanOnValue(v: Option<Value>, x: Value)
    ensures FilterHolds(Range, IsLessThan(x), Attribute(v)) <==> v.Some? && Before(v.value, x)
  {
    OneComparisonOnValue(Range, IsLessThan(x), Less(x), v);
  }

  lemma LessThanOrEqualOnValue(v: Option<Value>, x: Value)
    ensures FilterHolds(Range, IsLessThanOrEqual(x), Attribute(v)) <==> v.Some? && (v.value == x || Before(v.value, x))
  {
    OneComparisonOnValue(Range, IsLessThanOrEqual(x), LessOrEqual(x), v);
  }

  lemma ContainsOnValue(v: Option<string>, text: string)
    ensures FilterHolds(Text, Contains(text), StringColumn(v)) <==> v.Some? && LikeUpper(text, v.value)
  {
    var value := if v.Some? then Some(StringValue(v.value)) else None;
    assert StringColumn(v) == Attribute(value);
    OneComparisonOnValue(Text, Contains(text), Like(text), value);
  }

  lemma DoesNotContainOnValue(v: Option<string>, text: string)
    ensures FilterHolds(Text, DoesNotContain(text), StringColumn(v)) <==> v.Some? && !LikeUpper(text, v.value)
  {
    var value := if v.Some? then Some(StringValue(v.value)) else None;
    assert StringColumn(v) == Attribute(value);
    OneComparisonOnValue(Text, DoesNotContain(text), NotLike(text), value);
  }

  /** On one value, equals holds iff the value is present and equal, notEquals iff it is present
      and different, in iff it is present and listed, specified iff presence is as asked;
      these hold under every builder. */
  lemma PlainComparisons(b: Builder, v: Option<Value>, x: Value, xs: seq<Value>, present: bool)
    ensures FilterHolds(b, IsEqualTo(x), Attribute(v)) <==> v == Some(x)
    ensures FilterHolds(b, IsNotEqualTo(x), Attribute(v)) <==> v.Some? && v.value != x
    ensures FilterHolds(b, IsIn(xs), Attribute(v)) <==> v.Some? && v.value in xs
    ensures FilterHolds(b, IsSpecifiedAs(present), Attribute(v)) <==> (v.Some? <==> present)
  {
    EqualsOnValue(b, v, x);
    NotEqualsOnValue(b, v, x);
    InOnValue(b, v, xs);
    SpecifiedOnValue(b, v, present);
  }

  /** On one value, greaterThan and lessThan are strict and the OrEqual forms inclusive, in
      the value's own order; a null value satisfies none of them. */
  lemma RangeComparisons(v: Option<Value>, x: Value)
    ensures FilterHolds(Range, IsGreaterThan(x), Attribute(v)) <==> v.Some? && Before(x, v.value)
    ensures FilterHolds(Range, IsGreaterThanOrEqual(x), Attribute(v)) <==> v.Some? && (v.value == x || Before(x, v.value))
    ensures FilterHolds(Range, IsLessThan(x), Attribute(v)) <==> v.Some? && Before(v.value, x)
    ensures FilterHolds(Range, IsLessThanOrEqual(x), Attribute(v)) <==> v.Some? && (v.value == x || Before(v.value, x))
  {
    GreaterThanOnValue(v, x);
    GreaterThanOrEqualOnValue(v, x);
    LessThanOnValue(v, x);
    LessThanOrEqualOnValue(v, x);
  }

  /** On one string value, contains holds iff the upper-cased text occurs in the upper-cased
      value, doesNotContain iff it does not; a null value satisfies neither. */
  lemma TextComparisons(v: Option<string>, text: string)
    ensures FilterHolds(Text, Contains(text), StringColumn(v)) <==> v.Some? && LikeUpper(text, v.value)
    ensures FilterHolds(Text, DoesNotContain(text), StringColumn(v)) <==> v.Some? && !LikeUpper(text, v.value)
  {
    ContainsOnValue(v, text);
    DoesNotContainOnValue(v, text);
  }

  lemma {:induction false} PrefixIsInfix(needle: string, hay: string)
    requires needle <= hay
    ensures IsInfix(needle, hay)
  {
  }

  /** Every string contains itself. */
  lemma ContainsItself(s: string)
    ensures LikeUpper(s, s)
  {
    PrefixIsInfix(Upper(s), Upper(s));
  }

  lemma UpperIsIdempotent(s: string)
    ensures Upper(Upper(s)) == Upper(s)
  {
  }

  /** contains does not depend on the case of either side. */
  lemma ContainsIgnoresCase(text: string, s: string)
    ensures LikeUpper(Upper(text), s) == LikeUpper(text, s)
    ensures LikeUpper(text, Upper(s)) == LikeUpper(text, s)
  {
    UpperIsIdempotent(text);
    UpperIsIdempotent(s);
  }

  /** On a to-many join, equals holds iff some joined entity has that id. */
  lemma ToManyEquals(b: Builder, ids: set<Uuid>, x: Uuid)
    ensures FilterHolds(b, IsEqualTo(UuidValue(x)), ToMany(ids)) <==> x in ids
  {
    EqualsTakesPrecedence(b, IsEqualTo(UuidValue(x)), ToMany(ids));
  }

  /** On a to-many join, each comparison looks for one joined entity of its own: notEquals
      holds iff some joined entity has another id, so an entity joined to x and to y passes
      notEquals = x; nothing joined passes no notEquals. */
  lemma ToManyNotEquals(ids: set<Uuid>, x: Uuid)
    ensures FilterHolds(Plain, IsNotEqualTo(UuidValue(x)), ToMany(ids)) <==> exists u :: u in ids && u != x
  {
    OneComparison(Plain, IsNotEqualTo(UuidValue(x)), NotEq(UuidValue(x)), ToMany(ids));
    if exists v :: v in ToMany(ids) && OpHolds(NotEq(UuidValue(x)), v) {
      var v :| v in ToMany(ids) && OpHolds(NotEq(UuidValue(x)), v);
      assert v.value.uuid in ids && v.value.uuid != x;
    }
    if exists u :: u in ids && u != x {
      var u :| u in ids && u != x;
      assert Some(UuidValue(u)) in ToMany(ids) && OpHolds(NotEq(UuidValue(x)), Some(UuidValue(u)));
    }
  }

  /** On a to-many join, specified = false holds iff nothing is joined and specified = true
      iff something is. */
  lemma ToManySpecified(ids: set<Uuid>, present: bool)
    ensures FilterHolds(Plain, IsSpecifiedAs(present), ToMany(ids)) <==> (ids != {} <==> present)
  {
    OneComparison(Plain, IsSpecifiedAs(present), IsSpecified(present), ToMany(ids));
    if ids != {} {
      var u :| u in ids;
      assert Some(UuidValue(u)) in ToMany(ids);
      assert OpHolds(IsSpecified(true), Some(UuidValue(u)));
    } else {
      assert ToMany(ids) == {None};
    }
  }
}

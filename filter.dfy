/** The ORAM encoder's filters on breakdown values: a single-value filter
    compares one column with a number, a vector-value filter tests one
    column for membership in a set of numbers. */
module Filters {
  import opened Common

  datatype FilterType = GT | LT | GTE | LTE | EQ | NEQ | SubsetOf | NotSubsetOf

  /** The comparison types, the only ones a single-value filter accepts. */
  predicate IsComparison(t: FilterType)
  {
    t in {GT, LT, GTE, LTE, EQ, NEQ}
  }

  datatype Filter =
    | SingleValueFilter(filterType: FilterType, columnIndex: U64, filterValue: U32)
    | VectorValueFilter(filterType: FilterType, columnIndex: U64, filterValues: set<U32>)

  /** The SingleValueFilter constructor: an invalid_argument for the two
      set types. */
  function NewSingleValueFilter(t: FilterType, columnIndex: U64, filterValue: U32): (r: Result<Filter>)
    ensures r.Ok? <==> t !in {SubsetOf, NotSubsetOf}
    ensures r.Err? ==> r.kind == InvalidArgument
    ensures r.Ok? ==>
      && r.value.SingleValueFilter? && r.value.filterType == t
      && r.value.columnIndex == columnIndex && r.value.filterValue == filterValue
  {
    match t
    case GT | LT | GTE | LTE | EQ | NEQ => Ok(SingleValueFilter(t, columnIndex, filterValue))
    case SubsetOf | NotSubsetOf => Err(InvalidArgument)
  }

  /** The VectorValueFilter constructor: an invalid_argument for the six
      comparison types; the values are kept as a set. */
  function NewVectorValueFilter(t: FilterType, columnIndex: U64, filterValues: seq<U32>): (r: Result<Filter>)
    ensures r.Ok? <==> !IsComparison(t)
    ensures r.Err? ==> r.kind == InvalidArgument
    ensures r.Ok? ==>
      && r.value.VectorValueFilter? && r.value.filterType == t
      && r.value.columnIndex == columnIndex
      && (forall v :: v in r.value.filterValues <==> v in filterValues)
  {
    match t
    case GT | LT | GTE | LTE | EQ | NEQ => Err(InvalidArgument)
    case SubsetOf | NotSubsetOf => Ok(VectorValueFilter(t, columnIndex, set v | v in filterValues))
  }

  /** A filter either constructor can return. */
  predicate Constructed(f: Filter)
  {
    if f.SingleValueFilter? then IsComparison(f.filterType) else !IsComparison(f.filterType)
  }

  lemma ConstructorsConstruct(t: FilterType, columnIndex: U64, value: U32, values: seq<U32>)
    ensures NewSingleValueFilter(t, columnIndex, value).Ok? ==> Constructed(NewSingleValueFilter(t, columnIndex, value).value)
    ensures NewVectorValueFilter(t, columnIndex, values).Ok? ==> Constructed(NewVectorValueFilter(t, columnIndex, values).value)
  {
  }

  /** The size check of apply as written: size_t arithmetic, so the bound
      columnIndex + 1 wraps to 0 for the largest index. True when apply
      goes on to read the column. */
  function ColumnCheckPassesAsWritten(size: U64, columnIndex: U64): bool
  {
    !(size < (columnIndex + 1) % TwoTo64)
  }

  /** The check lets the largest index through on an empty vector, which
      then reads out of range. */
  lemma ColumnCheckWrapsAtMaxIndex()
    ensures ColumnCheckPassesAsWritten(0, TwoTo64 - 1)
  {
  }

  /** Otherwise the check passes exactly when the column exists. */
  lemma ColumnCheckBelowMax(size: U64, columnIndex: U64)
    requires columnIndex < TwoTo64 - 1
    ensures ColumnCheckPassesAsWritten(size, columnIndex) <==> columnIndex < size
  {
  }

  /** apply: an invalid_argument when the breakdown values have no column
      columnIndex (the check as intended: no wrap-around), then the
      filter's operator on that column; a filter of the other kind's type
      is an invalid_argument. */
  function Apply(f: Filter, breakdownValues: seq<U32>): (r: Result<bool>)
    ensures |breakdownValues| <= f.columnIndex ==> r == Err(InvalidArgument)
    ensures Constructed(f) ==> (r.Ok? <==> f.columnIndex < |breakdownValues|)
    ensures r.Err? ==> r.kind == InvalidArgument
  {
    if |breakdownValues| < f.columnIndex + 1 then Err(InvalidArgument)
    else
      var v := breakdownValues[f.columnIndex];
      match f
      case SingleValueFilter(t, _, x) =>
        (match t
         case GT => Ok(v > x)
         case LT => Ok(v < x)
         case GTE => Ok(v >= x)
         case LTE => Ok(v <= x)
         case EQ => Ok(v == x)
         case NEQ => Ok(v != x)
         case SubsetOf | NotSubsetOf => Err(InvalidArgument))
      case VectorValueFilter(t, _, xs) =>
        (match t
         case SubsetOf => Ok(v in xs)
         case NotSubsetOf => Ok(v !in xs)
         case GT | LT | GTE | LTE | EQ | NEQ => Err(InvalidArgument))
  }

  /** A filter's type with the opposite answer, within its kind. */
  function Negated(t: FilterType): (n: FilterType)
    ensures IsComparison(n) <==> IsComparison(t)
    ensures n != t
  {
    match t
    case GT => LTE
    case LT => GTE
    case GTE => LT
    case LTE => GT
    case EQ => NEQ
    case NEQ => EQ
    case SubsetOf => NotSubsetOf
    case NotSubsetOf => SubsetOf
  }

  /** Each type and its negation answer oppositely on every breakdown
      vector with the column, in particular NOT_SUBSET_OF is the negation
      of SUBSET_OF. */
  lemma NegatedFilterAnswersOpposite(f: Filter, breakdownValues: seq<U32>)
    requires Constructed(f) && f.columnIndex < |breakdownValues|
    ensures Apply(f.(filterType := Negated(f.filterType)), breakdownValues).Ok?
    ensures Apply(f.(filterType := Negated(f.filterType)), breakdownValues).value
            == !Apply(f, breakdownValues).value
  {
  }

  /** Apply with the comparison written out for each type: the single-value
      filter compares the column with its value, the vector filter tests
      membership. */
  lemma ApplyCompares(f: Filter, breakdownValues: seq<U32>)
    requires Constructed(f) && f.columnIndex < |breakdownValues|
    ensures var v := breakdownValues[f.columnIndex];
      match f
      case SingleValueFilter(t, _, x) =>
        (t == GT ==> Apply(f, breakdownValues) == Ok(v > x))
        && (t == LT ==> Apply(f, breakdownValues) == Ok(x > v))
        && (t == GTE ==> Apply(f, breakdownValues) == Ok(!(x > v)))
        && (t == LTE ==> Apply(f, breakdownValues) == Ok(!(v > x)))
        && (t == EQ ==> Apply(f, breakdownValues) == Ok(!(v > x) && !(x > v)))
        && (t == NEQ ==> Apply(f, breakdownValues) == Ok(v > x || x > v))
      case VectorValueFilter(t, _, xs) =>
        (t == SubsetOf ==> Apply(f, breakdownValues) == Ok(v in xs))
        && (t == NotSubsetOf ==> Apply(f, breakdownValues) == Ok(v !in xs))
  {
  }

  /** An EQ filter on x and a SUBSET_OF filter on {x} agree. */
  lemma EqualsIsSubsetOfSingleton(columnIndex: U64, x: U32, breakdownValues: seq<U32>)
    ensures Apply(SingleValueFilter(EQ, columnIndex, x), breakdownValues)
            == Apply(NewVectorValueFilter(SubsetOf, columnIndex, [x]).value, breakdownValues)
  {
    var f := NewVectorValueFilter(SubsetOf, columnIndex, [x]).value;
    assert f.filterValues == {x};
  }
}

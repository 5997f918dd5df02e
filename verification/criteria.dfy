/**
 * The search criteria (`SphinxCriteria`): a mutable bag of settings for one
 * search request. The public settings are plain fields that callers assign;
 * filters, ranges, weights and the query text are kept in ordered PHP arrays
 * that only the adders and setters below write.
 */
module Criteria {
  import opened Wrappers
  import opened PhpStrings
  import opened PhpNumbers
  import opened PhpArrays

  /** The `{min, max}` pair stored for a range filter. */
  datatype Bounds = Bounds(min: Num, max: Num)

  /** The values an attribute filter accepts. */
  type FilterValues = seq<int>

  /** Every key is already in normalised form. */
  ghost predicate NormalizedKeys<V>(a: Assoc<V>) {
    forall e :: e in a ==> Normalize(e.key) == e.key
  }

  /** Every range has integer bounds. */
  ghost predicate IntegralRanges(a: Assoc<Bounds>) {
    forall e :: e in a ==> e.value.min.IntNum? && e.value.max.IntNum?
  }

  /** The weights of a PHP array, each cast to int, under the same keys in
      the same order; a real PHP array stays one. */
  function CastWeights(ws: Assoc<Num>): (r: Assoc<int>)
    ensures Keys(r) == Keys(ws)
    ensures UniqueKeys(ws) ==> UniqueKeys(r)
  {
    seq(|ws|, i requires 0 <= i < |ws| => Entry(ws[i].key, IntCast(ws[i].value)))
  }

  /** Everything a criteria object holds, as one value. */
  datatype CriteriaState = CriteriaState(
    matchMode: Option<int>, rankMode: Option<int>, sortMode: Option<int>,
    maxMatches: int, cutOff: int, order: string, select: string,
    offset: Option<int>, limit: Option<int>, group: string, groupFunc: Option<int>,
    idMax: Option<int>, idMin: Option<int>,
    includeFilters: Assoc<FilterValues>, excludeFilters: Assoc<FilterValues>,
    fieldWeights: Assoc<int>, indexWeights: Assoc<int>,
    includeRanges: Assoc<Bounds>, excludeRanges: Assoc<Bounds>,
    query: string)

  class SphinxCriteria {
    // Public settings; `None` is an unset (null or non-integer) value and a
    // null string is the empty string.
    var matchMode: Option<int>
    var rankMode: Option<int>
    var sortMode: Option<int>
    var maxMatches: int
    var cutOff: int
    var order: string
    var select: string
    var offset: Option<int>
    var limit: Option<int>
    var group: string
    var groupFunc: Option<int>
    var idMax: Option<int>
    var idMin: Option<int>

    // Written only through the methods below.
    var includeFilters: Assoc<FilterValues>
    var excludeFilters: Assoc<FilterValues>
    var fieldWeights: Assoc<int>
    var indexWeights: Assoc<int>
    var includeRanges: Assoc<Bounds>
    var excludeRanges: Assoc<Bounds>
    var query: string

    /** The object's current settings. */
    function State(): CriteriaState
      reads this
    {
      CriteriaState(matchMode, rankMode, sortMode, maxMatches, cutOff, order, select,
        offset, limit, group, groupFunc, idMax, idMin,
        includeFilters, excludeFilters, fieldWeights, indexWeights,
        includeRanges, excludeRanges, query)
    }

    /** What the adders and setters maintain: the arrays are real PHP arrays,
        filter and range keys are normalised, range bounds are integers. */
    ghost predicate Valid()
      reads this
    {
      && UniqueKeys(includeFilters) && NormalizedKeys(includeFilters)
      && UniqueKeys(excludeFilters) && NormalizedKeys(excludeFilters)
      && UniqueKeys(fieldWeights) && UniqueKeys(indexWeights)
      && UniqueKeys(includeRanges) && NormalizedKeys(includeRanges) && IntegralRanges(includeRanges)
      && UniqueKeys(excludeRanges) && NormalizedKeys(excludeRanges) && IntegralRanges(excludeRanges)
    }

    /** The state of a criteria object nobody has configured yet. */
    ghost predicate IsDefault()
      reads this
    {
      && matchMode == None && rankMode == None && sortMode == None
      && maxMatches == 0 && cutOff == 0 && order == "" && select == ""
      && offset == None && limit == None && group == "" && groupFunc == None
      && idMax == None && idMin == None
      && includeFilters == [] && excludeFilters == []
      && fieldWeights == [] && indexWeights == []
      && includeRanges == [] && excludeRanges == []
      && query == ""
    }

    constructor ()
      ensures Valid() && IsDefault()
    {
      matchMode, rankMode, sortMode := None, None, None;
      maxMatches, cutOff, order, select := 0, 0, "", "";
      offset, limit, group, groupFunc := None, None, "", None;
      idMax, idMin := None, None;
      includeFilters, excludeFilters := [], [];
      fieldWeights, indexWeights := [], [];
      includeRanges, excludeRanges := [], [];
      query := "";
    }

    /** Only match records whose attribute `field` takes one of `values`. */
    method AddInCondition(field: string, values: FilterValues)
      requires Valid()
      modifies this`includeFilters
      ensures Valid()
      ensures includeFilters == Put(old(includeFilters), Normalize(field), values)
    {
      PutKeepsNormalized(includeFilters, field, values);
      PutUnique(includeFilters, Normalize(field), values);
      includeFilters := Put(includeFilters, Normalize(field), values);
    }

    function GetInConditions(): Assoc<FilterValues>
      reads this
    {
      includeFilters
    }

    /** Only match records whose attribute `field` takes none of `values`. */
    method AddNotInCondition(field: string, values: FilterValues)
      requires Valid()
      modifies this`excludeFilters
      ensures Valid()
      ensures excludeFilters == Put(old(excludeFilters), Normalize(field), values)
    {
      PutKeepsNormalized(excludeFilters, field, values);
      PutUnique(excludeFilters, Normalize(field), values);
      excludeFilters := Put(excludeFilters, Normalize(field), values);
    }

    function GetNotInConditions(): Assoc<FilterValues>
      reads this
    {
      excludeFilters
    }

    /** Binds a weight to a field, under the name exactly as given. */
    method AddFieldWeight(field: string, weight: Num)
      requires Valid()
      modifies this`fieldWeights
      ensures Valid()
      ensures fieldWeights == Put(old(fieldWeights), field, IntCast(weight))
    {
      PutUnique(fieldWeights, field, IntCast(weight));
      fieldWeights := Put(fieldWeights, field, IntCast(weight));
    }

    /** Replaces all field weights by `weights`, cast to int. */
    method SetFieldWeights(weights: Assoc<Num>)
      requires Valid() && UniqueKeys(weights)
      modifies this`fieldWeights
      ensures Valid()
      ensures fieldWeights == CastWeights(weights)
    {
      fieldWeights := [];
      for i := 0 to |weights|
        invariant Valid()
        invariant fieldWeights == CastWeights(weights[..i])
      {
        CastWeightsAppend(weights, i);
        PutFresh(fieldWeights, weights[i].key, IntCast(weights[i].value));
        AddFieldWeight(weights[i].key, weights[i].value);
      }
      assert weights[..|weights|] == weights;
    }

    function GetFieldWeights(): Assoc<int>
      reads this
    {
      fieldWeights
    }

    /** Binds a weight to an index, under the name exactly as given. */
    method AddIndexWeight(index: string, weight: Num)
      requires Valid()
      modifies this`indexWeights
      ensures Valid()
      ensures indexWeights == Put(old(indexWeights), index, IntCast(weight))
    {
      PutUnique(indexWeights, index, IntCast(weight));
      indexWeights := Put(indexWeights, index, IntCast(weight));
    }

    /** Replaces all index weights by `weights`, cast to int. */
    method SetIndexWeights(weights: Assoc<Num>)
      requires Valid() && UniqueKeys(weights)
      modifies this`indexWeights
      ensures Valid()
      ensures indexWeights == CastWeights(weights)
    {
      indexWeights := [];
      for i := 0 to |weights|
        invariant Valid()
        invariant indexWeights == CastWeights(weights[..i])
      {
        CastWeightsAppend(weights, i);
        PutFresh(indexWeights, weights[i].key, IntCast(weights[i].value));
        AddIndexWeight(weights[i].key, weights[i].value);
      }
      assert weights[..|weights|] == weights;
    }

    function GetIndexWeights(): Assoc<int>
      reads this
    {
      indexWeights
    }

    /** Only match records whose attribute `field` lies between the bounds,
        both cast to int. */
    method AddInRange(field: string, min: Num, max: Num)
      requires Valid()
      modifies this`includeRanges
      ensures Valid()
      ensures includeRanges == Put(old(includeRanges), Normalize(field), IntBounds(min, max))
    {
      PutKeepsNormalized(includeRanges, field, IntBounds(min, max));
      PutUnique(includeRanges, Normalize(field), IntBounds(min, max));
      PutEntries(includeRanges, Normalize(field), IntBounds(min, max));
      includeRanges := Put(includeRanges, Normalize(field), IntBounds(min, max));
    }

    function GetInRanges(): Assoc<Bounds>
      reads this
    {
      includeRanges
    }

    /** Reject records whose attribute `field` lies between the bounds, both
        cast to int. */
    method AddNotInRange(field: string, min: Num, max: Num)
      requires Valid()
      modifies this`excludeRanges
      ensures Valid()
      ensures excludeRanges == Put(old(excludeRanges), Normalize(field), IntBounds(min, max))
    {
      PutKeepsNormalized(excludeRanges, field, IntBounds(min, max));
      PutUnique(excludeRanges, Normalize(field), IntBounds(min, max));
      PutEntries(excludeRanges, Normalize(field), IntBounds(min, max));
      excludeRanges := Put(excludeRanges, Normalize(field), IntBounds(min, max));
    }

    function GetNotInRanges(): Assoc<Bounds>
      reads this
    {
      excludeRanges
    }

    /** Sets the full-text query; `GetQuery` returns it from then on. */
    method SetQuery(q: string)
      modifies this`query
      ensures GetQuery() == q
    {
      query := q;
    }

    function GetQuery(): string
      reads this
    {
      query
    }
  }

  /** The pair an adder stores for a range: both bounds cast to int. */
  function IntBounds(min: Num, max: Num): (b: Bounds)
    ensures b.min.IntNum? && b.max.IntNum?
    ensures IntCast(b.min) == IntCast(min) && IntCast(b.max) == IntCast(max)
    ensures min.IntNum? ==> b.min == min
    ensures max.IntNum? ==> b.max == max
  {
    Bounds(IntNum(IntCast(min)), IntNum(IntCast(max)))
  }

  lemma PutKeepsNormalized<V>(a: Assoc<V>, field: string, v: V)
    requires NormalizedKeys(a)
    ensures NormalizedKeys(Put(a, Normalize(field), v))
  {
    PutEntries(a, Normalize(field), v);
    NormalizeIdempotent(field);
  }

  lemma CastWeightsAppend(ws: Assoc<Num>, i: nat)
    requires UniqueKeys(ws) && i < |ws|
    ensures ws[i].key !in Keys(CastWeights(ws[..i]))
    ensures CastWeights(ws[..i + 1]) == CastWeights(ws[..i]) + [Entry(ws[i].key, IntCast(ws[i].value))]
  {
    var prefix := CastWeights(ws[..i]);
    forall j | 0 <= j < |prefix|
      ensures Keys(prefix)[j] != ws[i].key
    {
      assert Keys(prefix)[j] == ws[j].key;
    }
  }

  /** Two writes under names with the same normal form are two writes to one
      key: the second overwrites the first. */
  lemma SameNormalizedKeyOverwrites<V>(a: Assoc<V>, f1: string, f2: string, v1: V, v2: V)
    requires Normalize(f1) == Normalize(f2)
    ensures Put(Put(a, Normalize(f1), v1), Normalize(f2), v2) == Put(a, Normalize(f2), v2)
  {
    PutTwice(a, Normalize(f1), v1, v2);
  }

  /** Writing the same attribute twice, in two casings and with blanks around
      either name, leaves the array as if only the second write had happened,
      under the bare lower-cased name: one entry, holding the later value. */
  lemma SameLogicalFieldOverwrites<V>(a: Assoc<V>, pre1: string, field: string, post1: string,
                                      pre2: string, other: string, post2: string, v1: V, v2: V)
    requires Lower(field) == Lower(other)
    requires AllTrimmable(pre1) && AllTrimmable(post1) && AllTrimmable(pre2) && AllTrimmable(post2)
    ensures Put(Put(a, Normalize(pre1 + field + post1), v1), Normalize(pre2 + other + post2), v2)
         == Put(a, Normalize(field), v2)
  {
    NormalizeIgnoresPadding(pre1, field, post1);
    NormalizeIgnoresPadding(pre2, other, post2);
    NormalizeIgnoresCase(field, other);
    SameNormalizedKeyOverwrites(a, pre1 + field + post1, pre2 + other + post2, v1, v2);
  }

  /** The weights after `setFieldWeights`/`setIndexWeights`: the same keys in
      the same order, each looked up to the int cast of the given weight. */
  lemma {:induction false} CastWeightsView(ws: Assoc<Num>, k: string)
    ensures Keys(CastWeights(ws)) == Keys(ws)
    ensures Lookup(CastWeights(ws), k)
      == if Lookup(ws, k).Some? then Some(IntCast(Lookup(ws, k).value)) else None
  {
    if ws != [] {
      var r := CastWeights(ws);
      assert r[0] == Entry(ws[0].key, IntCast(ws[0].value));
      assert r[1..] == CastWeights(ws[1..]);
      CastWeightsView(ws[1..], k);
    }
  }

  /** A filter added twice under one logical name keeps one entry, under the
      normalised name, with the later values. */
  method RepeatedConditionScenario() returns (filters: Assoc<FilterValues>)
    ensures filters == [Entry("size", [2])]
  {
    SizeNormalized();
    var c := new SphinxCriteria();
    c.AddInCondition("size", [1]);
    c.AddInCondition(" size\t", [2]);
    filters := c.GetInConditions();
  }

  lemma SizeNormalized()
    ensures Normalize("size") == "size" == Normalize(" size\t")
  {
    assert " size\t" == " " + "size" + "\t";
    assert Normalize("size") == "size" by {
      assert TrimRight("size") == "size";
      assert TrimLeft("size") == "size";
      assert Lower("size") == "size";
    }
    NormalizeIgnoresPadding(" ", "size", "\t");
  }

  /** Weights keep the name as given, so two casings are two entries, and a
      float weight is truncated. */
  method WeightNamesScenario() returns (weights: Assoc<int>)
    ensures weights == [Entry("Title", 2), Entry("title", -3)]
  {
    var c := new SphinxCriteria();
    c.AddFieldWeight("Title", IntNum(2));
    c.AddFieldWeight("title", FloatNum(-3.7));
    weights := c.GetFieldWeights();
  }
}

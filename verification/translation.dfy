/**
 * What the component tells the client for one criteria object and index
 * (`Sphinx::applyCriteria`, `setFilters`, `setFilterRanges`), and how it
 * reads the client's reply (`Sphinx::execute`), as functions of their
 * inputs. The component's methods are proved against these.
 *
 * `applyCriteria` is a fixed list of rules, each emitting zero or more
 * directives of one kind; `Phase` numbers the kinds in rule order and
 * `Rules` holds the output of each rule, in rule order.
 */
module Translation {
  import opened Wrappers
  import opened PhpStrings
  import opened PhpNumbers
  import opened PhpArrays
  import opened Criteria
  import opened Client

  const NonArrayMessage: string := "Sphinx client returned a non-array."

  /** Rules 1..14 of `applyCriteria`; phase 0 is the server setting, which
      only the client's initialisation emits. */
  const PhaseCount: nat := 15

  function Phase(d: Directive): nat {
    match d
    case SetServer(_, _) => 0
    case SetMatchMode(_) => 1
    case SetRankingMode(_) => 2
    case SetSortMode(_, _) => 3
    case SetSelect(_) => 4
    case SetLimits(_, _, _, _) => 5
    case SetGroupBy(_, _, _) => 6
    case SetIDRange(_, _) => 7
    case SetFieldWeights(_) => 8
    case SetIndexWeights(_) => 9
    case SetFilter(_, _, exclude) => if exclude then 11 else 10
    case SetFilterRange(_, _, _, exclude) => if exclude then 13 else 12
    case SetFilterFloatRange(_, _, _, exclude) => if exclude then 13 else 12
    case AddQuery(_, _) => 14
  }

  /** `setFilters`: one `setFilter` call per array entry, in array order. */
  function FilterDirectives(filters: Assoc<FilterValues>, exclude: bool): (r: seq<Directive>)
    ensures |r| == |filters|
    ensures forall i :: 0 <= i < |r| ==>
      Phase(r[i]) == (if exclude then 11 else 10) && r[i].attribute == filters[i].key
  {
    seq(|filters|, i requires 0 <= i < |filters| => SetFilter(filters[i].key, filters[i].value, exclude))
  }

  /** The one call `setFilterRanges` makes for a range: the float variant
      when either bound is a float, the integer variant otherwise. */
  function RangeDirective(attribute: string, b: Bounds, exclude: bool): (d: Directive)
    ensures d.SetFilterFloatRange? <==> b.min.FloatNum? || b.max.FloatNum?
    ensures d.SetFilterRange? <==> b.min.IntNum? && b.max.IntNum?
    ensures d.attribute == attribute && d.exclude == exclude
    ensures d.SetFilterRange? ==> d.min == b.min.i && d.max == b.max.i
    ensures d.SetFilterFloatRange? ==> d.fmin == FloatCast(b.min) && d.fmax == FloatCast(b.max)
  {
    if b.max.FloatNum? || b.min.FloatNum? then
      SetFilterFloatRange(attribute, FloatCast(b.min), FloatCast(b.max), exclude)
    else
      SetFilterRange(attribute, IntCast(b.min), IntCast(b.max), exclude)
  }

  /** `setFilterRanges`: one call per array entry, in array order. */
  function RangeDirectives(ranges: Assoc<Bounds>, exclude: bool): (r: seq<Directive>)
    ensures |r| == |ranges|
    ensures forall i :: 0 <= i < |r| ==>
      Phase(r[i]) == (if exclude then 13 else 12) && r[i].attribute == ranges[i].key
  {
    seq(|ranges|, i requires 0 <= i < |ranges| => RangeDirective(ranges[i].key, ranges[i].value, exclude))
  }

  /** `(int)$limit > 0` for an integer-or-null limit. */
  predicate HasLimit(limit: Option<int>) {
    limit.Some? && limit.value > 0
  }

  /** Rules 1..7: each passes one setting on only when the criteria has it. */
  function MatchModeDirectives(c: CriteriaState): seq<Directive> {
    if c.matchMode.Some? then [SetMatchMode(c.matchMode.value)] else []
  }

  function RankingModeDirectives(c: CriteriaState): seq<Directive> {
    if c.rankMode.Some? then [SetRankingMode(c.rankMode.value)] else []
  }

  function SortModeDirectives(c: CriteriaState): seq<Directive> {
    if c.sortMode.Some? then [SetSortMode(c.sortMode.value, c.order)] else []
  }

  function SelectDirectives(c: CriteriaState): seq<Directive> {
    if |c.select| > 0 then [SetSelect(c.select)] else []
  }

  function LimitsDirectives(c: CriteriaState): seq<Directive> {
    if HasLimit(c.limit) then [SetLimits(c.offset, c.limit.value, c.maxMatches, c.cutOff)] else []
  }

  function GroupByDirectives(c: CriteriaState): seq<Directive> {
    if |c.group| > 0 then [SetGroupBy(c.group, c.groupFunc, None)] else []
  }

  function IdRangeDirectives(c: CriteriaState): seq<Directive> {
    if c.idMax.Some? && c.idMin.Some? then [SetIDRange(c.idMin.value, c.idMax.value)] else []
  }

  /** The outputs of the rules of `applyCriteria`, indexed by phase. */
  function Rules(c: CriteriaState, index: string): seq<seq<Directive>> {
    [ [],
      MatchModeDirectives(c), RankingModeDirectives(c), SortModeDirectives(c),
      SelectDirectives(c), LimitsDirectives(c), GroupByDirectives(c), IdRangeDirectives(c),
      [SetFieldWeights(c.fieldWeights)], [SetIndexWeights(c.indexWeights)],
      FilterDirectives(c.includeFilters, false), FilterDirectives(c.excludeFilters, true),
      RangeDirectives(c.includeRanges, false), RangeDirectives(c.excludeRanges, true),
      [AddQuery(c.query, index)] ]
  }

  /** The output of rule `p`; nothing for a phase no rule has. */
  function Segment(c: CriteriaState, index: string, p: nat): seq<Directive> {
    if p < |Rules(c, index)| then Rules(c, index)[p] else []
  }

  /** The outputs of the first `n` of the rules `rs`, in rule order. */
  function Flatten(rs: seq<seq<Directive>>, n: nat): seq<Directive>
    requires n <= |rs|
  {
    if n == 0 then [] else Flatten(rs, n - 1) + rs[n - 1]
  }

  /** Everything `applyCriteria` tells the client about `c` and `index`. */
  function Translate(c: CriteriaState, index: string): (r: seq<Directive>)
    ensures |r| > 0 && r[|r| - 1] == AddQuery(c.query, index)
  {
    Flatten(Rules(c, index), PhaseCount)
  }

  /** Appending the output of one more rule to a log. */
  lemma FlattenAfter(log: seq<Directive>, rs: seq<seq<Directive>>, n: nat)
    requires n < |rs|
    ensures log + Flatten(rs, n + 1) == (log + Flatten(rs, n)) + rs[n]
  {
    assert Flatten(rs, n + 1) == Flatten(rs, n) + rs[n];
  }

  /** A log followed by `Translate`, written out rule by rule. */
  lemma TranslateAfter(log: seq<Directive>, c: CriteriaState, index: string)
    ensures log + Translate(c, index)
      == log + MatchModeDirectives(c) + RankingModeDirectives(c) + SortModeDirectives(c)
         + SelectDirectives(c) + LimitsDirectives(c) + GroupByDirectives(c) + IdRangeDirectives(c)
         + [SetFieldWeights(c.fieldWeights)] + [SetIndexWeights(c.indexWeights)]
         + FilterDirectives(c.includeFilters, false) + FilterDirectives(c.excludeFilters, true)
         + RangeDirectives(c.includeRanges, false) + RangeDirectives(c.excludeRanges, true)
         + [AddQuery(c.query, index)]
  {
    var rs := Rules(c, index);
    assert log + Flatten(rs, 1) == log by {
      assert Flatten(rs, 1) == Flatten(rs, 0) + rs[0] == [];
    }
    FlattenAfter(log, rs, 1);
    FlattenAfter(log, rs, 2);
    FlattenAfter(log, rs, 3);
    FlattenAfter(log, rs, 4);
    FlattenAfter(log, rs, 5);
    FlattenAfter(log, rs, 6);
    FlattenAfter(log, rs, 7);
    FlattenAfter(log, rs, 8);
    FlattenAfter(log, rs, 9);
    FlattenAfter(log, rs, 10);
    FlattenAfter(log, rs, 11);
    FlattenAfter(log, rs, 12);
    FlattenAfter(log, rs, 13);
    FlattenAfter(log, rs, 14);
  }

  /** `execute`: the reply's error, then its warning, then the shape of its
      results are checked, in that order; the first that fails becomes the
      error, and a message that PHP reads as false counts as none. */
  function CheckReply<R>(reply: Reply<R>): (r: Result<seq<R>, string>)
    ensures Truthy(reply.lastError) ==> r == Err(reply.lastError)
    ensures !Truthy(reply.lastError) && Truthy(reply.lastWarning) ==> r == Err(reply.lastWarning)
    ensures !Truthy(reply.lastError) && !Truthy(reply.lastWarning) && reply.results.None? ==> r == Err(NonArrayMessage)
    ensures r.Ok? <==> !Truthy(reply.lastError) && !Truthy(reply.lastWarning) && reply.results.Some?
    ensures r.Ok? ==> r.value == reply.results.value
    ensures r.Err? ==> Truthy(r.error)
  {
    if Truthy(reply.lastError) then Err(reply.lastError)
    else if Truthy(reply.lastWarning) then Err(reply.lastWarning)
    else if reply.results.None? then Err(NonArrayMessage)
    else Ok(reply.results.value)
  }

  /** What `query` returns for a reply: an error carrying the message of the
      first check that fails, or else the first result, which is null exactly
      when the results are empty. */
  lemma QueryOutcome<R>(reply: Reply<R>)
    ensures var f := FirstResult(CheckReply(reply));
      && (f.Err? <==> Truthy(reply.lastError) || Truthy(reply.lastWarning) || reply.results.None?)
      && (f.Err? ==> Truthy(f.error) && f.error in {reply.lastError, reply.lastWarning, NonArrayMessage})
      && (f == Ok(None) <==>
            !Truthy(reply.lastError) && !Truthy(reply.lastWarning) && reply.results == Some([]))
      && (f.Ok? && f.value.Some? ==> reply.results.Some? && f.value.value == reply.results.value[0])
  {
  }

  /** `$results[0]`: the first result, or null when there is none. */
  function FirstResult<R>(r: Result<seq<R>, string>): (f: Result<Option<R>, string>)
    ensures f.Err? <==> r.Err?
    ensures r.Err? ==> f.error == r.error
    ensures r.Ok? && r.value != [] ==> f == Ok(Some(r.value[0]))
    ensures r.Ok? && r.value == [] ==> f == Ok(None)
  {
    match r
    case Err(e) => Err(e)
    case Ok(rs) => Ok(if |rs| > 0 then Some(rs[0]) else None)
  }
}

/**
 * The application component (`Sphinx`): it holds the client configuration,
 * creates the client lazily with the configured defaults, translates a
 * criteria object into calls on the client, and turns the client's reply
 * into a result or an error.
 */
module Component {
  import opened Wrappers
  import opened PhpArrays
  import opened Criteria
  import opened Client
  import opened Translation

  /** Default values of the Sphinx API constants the component uses. */
  const SPH_MATCH_EXTENDED2: int := 6
  const SPH_RANK_PROXIMITY_BM25: int := 0
  const SPH_SORT_RELEVANCE: int := 0
  const SPH_GROUPBY_DAY: int := 0

  class Sphinx {
    // Configuration: public properties, set when the component is configured.
    var serverHost: string
    var serverPort: int
    var matchMode: int
    var rankMode: int
    var sortMode: int
    var groupFunc: int
    var groupSort: string
    var sortBy: string
    var indices: seq<string>

    /** The cached client; null until first needed and after a reset. */
    var client: SphinxClient?

    constructor ()
      ensures serverHost == "127.0.0.1" && serverPort == 9312
      ensures matchMode == SPH_MATCH_EXTENDED2 && rankMode == SPH_RANK_PROXIMITY_BM25
      ensures sortMode == SPH_SORT_RELEVANCE && groupFunc == SPH_GROUPBY_DAY
      ensures groupSort == "@group desc" && sortBy == "" && indices == []
      ensures client == null
    {
      serverHost, serverPort := "127.0.0.1", 9312;
      matchMode, rankMode, sortMode := SPH_MATCH_EXTENDED2, SPH_RANK_PROXIMITY_BM25, SPH_SORT_RELEVANCE;
      groupFunc, groupSort, sortBy := SPH_GROUPBY_DAY, "@group desc", "";
      indices := [];
      client := null;
    }

    /** The calls a new client receives before anything else, in order: the
        server first, then one call each for settings that a criteria's
        mode and grouping rules may later override. */
    function Defaults(): (r: seq<Directive>)
      reads this
      ensures |r| == 5 && r[0].SetServer?
      ensures forall j :: 1 <= j < |r| ==> 1 <= Phase(r[j]) <= 6
      ensures forall j, k :: 0 <= j < k < |r| ==> Phase(r[j]) != Phase(r[k])
    {
      [ SetServer(serverHost, serverPort),
        SetMatchMode(matchMode),
        SetSortMode(sortMode, sortBy),
        SetRankingMode(rankMode),
        SetGroupBy("", Some(groupFunc), Some(groupSort)) ]
    }

    /** The log of the client that `GetClient` hands out: the cached
        client's, or the defaults of the one it would create. */
    function CurrentLog(): seq<Directive>
      reads this, client
    {
      if client == null then Defaults() else client.log
    }

    /** Returns the cached client, creating and configuring it first if
        there is none. */
    method GetClient() returns (c: SphinxClient)
      modifies this`client
      ensures client == c
      ensures old(client) != null ==> c == old(client)
      ensures old(client) == null ==> fresh(c)
      ensures c.log == old(CurrentLog())
    {
      if client == null {
        var created := new SphinxClient();
        created.Record(SetServer(serverHost, serverPort));
        created.Record(SetMatchMode(matchMode));
        created.Record(SetSortMode(sortMode, sortBy));
        created.Record(SetRankingMode(rankMode));
        created.Record(SetGroupBy("", Some(groupFunc), Some(groupSort)));
        client := created;
      }
      c := client;
    }

    /** Runs the criteria against `index` and returns the first result.
        With `resetClient` (PHP's default is true) the cached client is
        dropped first, so the query runs on a new client that has seen only
        the defaults. */
    method Query<R>(criteria: SphinxCriteria, index: string, resetClient: bool, reply: Reply<R>)
      returns (r: Result<Option<R>, string>)
      modifies this`client, client
      ensures client != null
      ensures resetClient || old(client) == null ==>
        fresh(client) && client.log == Defaults() + Translate(criteria.State(), index)
      ensures !resetClient && old(client) != null ==>
        client == old(client) && client.log == old(client.log) + Translate(criteria.State(), index)
      ensures resetClient && old(client) != null ==> old(client).log == old(client.log)
      ensures r == FirstResult(CheckReply(reply))
    {
      if resetClient {
        client := null;
      }
      ApplyCriteria(criteria, index);
      var results := Execute(reply);
      r := FirstResult(results);
    }

    /** Runs the queries the client holds and checks the reply; what the
        engine answers is the parameter `reply`. */
    method Execute<R>(reply: Reply<R>) returns (r: Result<seq<R>, string>)
      modifies this`client
      ensures client != null && client.log == old(CurrentLog())
      ensures old(client) != null ==> client == old(client)
      ensures old(client) == null ==> fresh(client)
      ensures r == CheckReply(reply)
    {
      var c := GetClient();
      r := CheckReply(reply);
    }

    /** Tells the client everything the criteria asks for, then adds the
        query on `index`. */
    method ApplyCriteria(criteria: SphinxCriteria, index: string)
      modifies this`client, client
      ensures client != null && client.log == old(CurrentLog()) + Translate(criteria.State(), index)
      ensures old(client) != null ==> client == old(client)
      ensures old(client) == null ==> fresh(client)
    {
      var c := GetClient();
      ghost var v := criteria.State();
      TranslateAfter(c.log, v, index);
      ApplyModes(criteria, c);
      ApplyResultShape(criteria, c);
      var fieldWeights := criteria.GetFieldWeights();
      var c1 := GetClient();
      c1.Record(SetFieldWeights(fieldWeights));
      var indexWeights := criteria.GetIndexWeights();
      var c2 := GetClient();
      c2.Record(SetIndexWeights(indexWeights));
      var includeFilters := criteria.GetInConditions();
      SetFilters(includeFilters, false);
      var excludeFilters := criteria.GetNotInConditions();
      SetFilters(excludeFilters, true);
      var includeRanges := criteria.GetInRanges();
      SetFilterRanges(includeRanges, false);
      var excludeRanges := criteria.GetNotInRanges();
      SetFilterRanges(excludeRanges, true);
      var query := criteria.GetQuery();
      c.Record(AddQuery(query, index));
    }

    /** The modes `applyCriteria` passes on only when the criteria sets
        them: match, ranking and sort mode, in that order. */
    method ApplyModes(criteria: SphinxCriteria, c: SphinxClient)
      modifies c
      ensures var v := old(criteria.State());
        c.log == old(c.log) + MatchModeDirectives(v) + RankingModeDirectives(v) + SortModeDirectives(v)
    {
      ghost var v := criteria.State();
      ghost var log0 := c.log;
      if criteria.matchMode.Some? {
        c.Record(SetMatchMode(criteria.matchMode.value));
      }
      assert c.log == log0 + MatchModeDirectives(v);
      ghost var log1 := c.log;
      if criteria.rankMode.Some? {
        c.Record(SetRankingMode(criteria.rankMode.value));
      }
      assert c.log == log1 + RankingModeDirectives(v);
      ghost var log2 := c.log;
      if criteria.sortMode.Some? {
        c.Record(SetSortMode(criteria.sortMode.value, criteria.order));
      }
      assert c.log == log2 + SortModeDirectives(v);
    }

    /** The result-shaping settings `applyCriteria` passes on only when the
        criteria has them: select clause, limits, grouping and ID range, in
        that order. */
    method ApplyResultShape(criteria: SphinxCriteria, c: SphinxClient)
      modifies c
      ensures var v := old(criteria.State());
        c.log == old(c.log) + SelectDirectives(v) + LimitsDirectives(v) + GroupByDirectives(v) + IdRangeDirectives(v)
    {
      ghost var v := criteria.State();
      ghost var log3 := c.log;
      if |criteria.select| > 0 {
        c.Record(SetSelect(criteria.select));
      }
      assert c.log == log3 + SelectDirectives(v);
      ghost var log4 := c.log;
      if HasLimit(criteria.limit) {
        c.Record(SetLimits(criteria.offset, criteria.limit.value, criteria.maxMatches, criteria.cutOff));
      }
      assert c.log == log4 + LimitsDirectives(v);
      ghost var log5 := c.log;
      if |criteria.group| > 0 {
        c.Record(SetGroupBy(criteria.group, criteria.groupFunc, None));
      }
      assert c.log == log5 + GroupByDirectives(v);
      ghost var log6 := c.log;
      if criteria.idMax.Some? && criteria.idMin.Some? {
        c.Record(SetIDRange(criteria.idMin.value, criteria.idMax.value));
      }
      assert c.log == log6 + IdRangeDirectives(v);
    }

    /** One `setFilter` call per entry of `filters`, in array order; PHP's
        default for `exclude` is false. */
    method SetFilters(filters: Assoc<FilterValues>, exclude: bool)
      modifies this`client, client
      ensures client != null && client.log == old(CurrentLog()) + FilterDirectives(filters, exclude)
      ensures old(client) != null ==> client == old(client)
      ensures old(client) == null ==> fresh(client)
    {
      var c := GetClient();
      for i := 0 to |filters|
        invariant client == c
        invariant c.log == old(CurrentLog()) + FilterDirectives(filters[..i], exclude)
      {
        assert FilterDirectives(filters[..i + 1], exclude)
          == FilterDirectives(filters[..i], exclude) + [SetFilter(filters[i].key, filters[i].value, exclude)];
        c.Record(SetFilter(filters[i].key, filters[i].value, exclude));
      }
      assert filters[..|filters|] == filters;
    }

    /** One range call per entry of `ranges`, in array order: the float
        variant when either bound is a float, the integer one otherwise.
        PHP's default for `exclude` is false. */
    method SetFilterRanges(ranges: Assoc<Bounds>, exclude: bool)
      modifies this`client, client
      ensures client != null && client.log == old(CurrentLog()) + RangeDirectives(ranges, exclude)
      ensures old(client) != null ==> client == old(client)
      ensures old(client) == null ==> fresh(client)
    {
      var c := GetClient();
      for i := 0 to |ranges|
        invariant client == c
        invariant c.log == old(CurrentLog()) + RangeDirectives(ranges[..i], exclude)
      {
        var field, range := ranges[i].key, ranges[i].value;
        assert RangeDirectives(ranges[..i + 1], exclude)
          == RangeDirectives(ranges[..i], exclude) + [RangeDirective(field, range, exclude)];
        if range.max.FloatNum? || range.min.FloatNum? {
          c.Record(SetFilterFloatRange(field, PhpNumbers.FloatCast(range.min), PhpNumbers.FloatCast(range.max), exclude));
        } else {
          c.Record(SetFilterRange(field, PhpNumbers.IntCast(range.min), PhpNumbers.IntCast(range.max), exclude));
        }
      }
      assert ranges[..|ranges|] == ranges;
    }
  }

  /** A newly configured component creates its client on first use, with the
      default settings in order, and hands the same client out afterwards
      without touching it again. */
  method LazyClientScenario() returns (first: SphinxClient, second: SphinxClient)
    ensures first == second
    ensures first.log == [
      SetServer("127.0.0.1", 9312), SetMatchMode(6), SetSortMode(0, ""), SetRankingMode(0),
      SetGroupBy("", Some(0), Some("@group desc"))]
  {
    var sphinx := new Sphinx();
    first := sphinx.GetClient();
    second := sphinx.GetClient();
  }
}

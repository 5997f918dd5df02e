/**
 * Properties of the directives `applyCriteria` emits: they come in rule
 * order, each rule fires exactly under its guard, filters and ranges give
 * one directive per entry in array order, and the query comes last.
 */
module TranslationProperties {
  import opened Wrappers
  import opened PhpNumbers
  import opened PhpArrays
  import opened Criteria
  import opened Client
  import opened Translation

  /** The directives of one kind, in their order in `t`. */
  function OfPhase(t: seq<Directive>, p: nat): (r: seq<Directive>)
    ensures |r| <= |t|
  {
    if t == [] then []
    else (if Phase(t[0]) == p then [t[0]] else []) + OfPhase(t[1..], p)
  }

  /** Directive kinds never go backwards along `t`. */
  ghost predicate PhaseOrdered(t: seq<Directive>) {
    forall j, k :: 0 <= j < k < |t| ==> Phase(t[j]) <= Phase(t[k])
  }

  lemma {:induction false} OfPhaseConcat(x: seq<Directive>, y: seq<Directive>, p: nat)
    ensures OfPhase(x + y, p) == OfPhase(x, p) + OfPhase(y, p)
  {
    if x == [] {
      assert x + y == y;
    } else {
      var xy := x + y;
      var head := if Phase(x[0]) == p then [x[0]] else [];
      assert xy[0] == x[0] && xy[1..] == x[1..] + y;
      OfPhaseConcat(x[1..], y, p);
      assert OfPhase(xy, p) == head + (OfPhase(x[1..], p) + OfPhase(y, p));
      assert OfPhase(x, p) == head + OfPhase(x[1..], p);
    }
  }

  /** Every directive of `t` is of kind `q`. */
  ghost predicate OfKind(t: seq<Directive>, q: nat) {
    forall i :: 0 <= i < |t| ==> Phase(t[i]) == q
  }

  lemma {:induction false} OfPhaseUniform(t: seq<Directive>, q: nat, p: nat)
    requires OfKind(t, q)
    ensures OfPhase(t, p) == if p == q then t else []
  {
    if t != [] {
      assert Phase(t[0]) == q;
      assert OfKind(t[1..], q) by {
        forall i | 0 <= i < |t| - 1 ensures Phase(t[1..][i]) == q {
          assert t[1..][i] == t[i + 1];
        }
      }
      OfPhaseUniform(t[1..], q, p);
      if p == q {
        assert [t[0]] + t[1..] == t;
      }
    }
  }

  /** Appending directives all of kind `q` adds them to the kind-`p`
      projection exactly when `p == q`. */
  lemma OfPhaseAppend(x: seq<Directive>, y: seq<Directive>, q: nat, p: nat)
    requires OfKind(y, q)
    ensures OfPhase(x + y, p) == OfPhase(x, p) + (if p == q then y else [])
  {
    OfPhaseConcat(x, y, p);
    OfPhaseUniform(y, q, p);
    if p != q {
      assert OfPhase(x, p) + [] == OfPhase(x, p);
    }
  }

  /** Rule `p` of `rs` emits only directives of kind `p`. */
  ghost predicate Phased(rs: seq<seq<Directive>>) {
    forall p :: 0 <= p < |rs| ==> OfKind(rs[p], p)
  }

  /** Every directive a rule of `applyCriteria` emits is of that rule's kind. */
  lemma RulesPhased(c: CriteriaState, index: string)
    ensures Phased(Rules(c, index))
  {
    var rs := Rules(c, index);
    forall p | 0 <= p < |rs| ensures OfKind(rs[p], p) {
      if p == 10 {
        assert rs[p] == FilterDirectives(c.includeFilters, false);
      } else if p == 11 {
        assert rs[p] == FilterDirectives(c.excludeFilters, true);
      } else if p == 12 {
        assert rs[p] == RangeDirectives(c.includeRanges, false);
      } else if p == 13 {
        assert rs[p] == RangeDirectives(c.excludeRanges, true);
      } else {
        assert |rs[p]| <= 1;
      }
    }
  }

  /** The first `n` rules emit directives of kinds below `n`. */
  lemma {:induction false} FlattenBelow(rs: seq<seq<Directive>>, n: nat)
    requires Phased(rs) && n <= |rs|
    ensures forall i :: 0 <= i < |Flatten(rs, n)| ==> Phase(Flatten(rs, n)[i]) < n
  {
    if n > 0 {
      var x, y := Flatten(rs, n - 1), rs[n - 1];
      assert Flatten(rs, n) == x + y;
      FlattenBelow(rs, n - 1);
      assert OfKind(y, n - 1);
      forall i | 0 <= i < |x + y| ensures Phase((x + y)[i]) < n {
        if i < |x| {
          assert (x + y)[i] == x[i];
        } else {
          assert (x + y)[i] == y[i - |x|];
        }
      }
    }
  }

  /** The first `n` rules emit their directives in kind order. */
  lemma {:induction false} FlattenOrdered(rs: seq<seq<Directive>>, n: nat)
    requires Phased(rs) && n <= |rs|
    ensures PhaseOrdered(Flatten(rs, n))
  {
    if n > 0 {
      var x, y := Flatten(rs, n - 1), rs[n - 1];
      assert Flatten(rs, n) == x + y;
      FlattenOrdered(rs, n - 1);
      FlattenBelow(rs, n - 1);
      assert OfKind(y, n - 1);
      forall j, k | 0 <= j < k < |x + y|
        ensures Phase((x + y)[j]) <= Phase((x + y)[k])
      {
        if k < |x| {
          assert (x + y)[j] == x[j] && (x + y)[k] == x[k];
        } else if j < |x| {
          assert (x + y)[j] == x[j] && (x + y)[k] == y[k - |x|];
        } else {
          assert (x + y)[j] == y[j - |x|] && (x + y)[k] == y[k - |x|];
        }
      }
    }
  }

  /** One more rule, whose directives are all of kind `n - 1`: the kind-`p`
      projection gains that rule's output exactly when `p == n - 1`. */
  lemma ByPhaseStep(x: seq<Directive>, y: seq<Directive>, n: nat, p: nat, rp: seq<Directive>)
    requires n > 0 && OfKind(y, n - 1)
    requires OfPhase(x, p) == if p < n - 1 then rp else []
    requires p == n - 1 ==> rp == y
    ensures OfPhase(x + y, p) == if p < n then rp else []
  {
    OfPhaseAppend(x, y, n - 1, p);
    if p < n - 1 {
      assert OfPhase(x, p) + [] == rp;
    } else if p == n - 1 {
      assert [] + y == rp;
    } else {
      assert OfPhase(x + y, p) == [] + [];
    }
  }

  /** Among the first `n` rules, the directives of kind `p` are exactly
      rule `p`'s. */
  lemma {:induction false} FlattenByPhase(rs: seq<seq<Directive>>, n: nat, p: nat)
    requires Phased(rs) && n <= |rs|
    ensures OfPhase(Flatten(rs, n), p) == if p < n then rs[p] else []
  {
    if n > 0 {
      var x, y := Flatten(rs, n - 1), rs[n - 1];
      assert Flatten(rs, n) == x + y;
      FlattenByPhase(rs, n - 1, p);
      ByPhaseStep(x, y, n, p, if p < |rs| then rs[p] else []);
    }
  }

  /** The directives come in rule order. */
  lemma TranslateOrdered(c: CriteriaState, index: string)
    ensures PhaseOrdered(Translate(c, index))
  {
    RulesPhased(c, index);
    FlattenOrdered(Rules(c, index), PhaseCount);
  }

  /** The directives of each kind are exactly what that kind's rule emits. */
  lemma TranslateByPhase(c: CriteriaState, index: string, p: nat)
    ensures OfPhase(Translate(c, index), p) == Segment(c, index, p)
  {
    RulesPhased(c, index);
    FlattenByPhase(Rules(c, index), PhaseCount, p);
  }

  lemma {:induction false} InOfPhase(t: seq<Directive>, d: Directive)
    ensures d in t <==> d in OfPhase(t, Phase(d))
  {
    if t != [] {
      InOfPhase(t[1..], d);
      assert t == [t[0]] + t[1..];
    }
  }

  /** A directive occurs in the translation exactly when its kind's rule
      emits it. */
  lemma InTranslate(c: CriteriaState, index: string, d: Directive)
    ensures d in Translate(c, index) <==> d in Segment(c, index, Phase(d))
  {
    InOfPhase(Translate(c, index), d);
    TranslateByPhase(c, index, Phase(d));
  }

  /** `setMatchMode` is emitted, with the criteria's mode, exactly when the
      criteria sets one. */
  lemma MatchModeRule(c: CriteriaState, index: string, mode: int)
    ensures SetMatchMode(mode) in Translate(c, index) <==> c.matchMode == Some(mode)
  {
    InTranslate(c, index, SetMatchMode(mode));
  }

  lemma RankingModeRule(c: CriteriaState, index: string, ranker: int)
    ensures SetRankingMode(ranker) in Translate(c, index) <==> c.rankMode == Some(ranker)
  {
    InTranslate(c, index, SetRankingMode(ranker));
  }

  /** `setSortMode` takes the criteria's order clause as its second argument. */
  lemma SortModeRule(c: CriteriaState, index: string, mode: int, sortBy: string)
    ensures SetSortMode(mode, sortBy) in Translate(c, index) <==> c.sortMode == Some(mode) && sortBy == c.order
  {
    InTranslate(c, index, SetSortMode(mode, sortBy));
  }

  lemma SelectRule(c: CriteriaState, index: string, select: string)
    ensures SetSelect(select) in Translate(c, index) <==> c.select != "" && select == c.select
  {
    InTranslate(c, index, SetSelect(select));
  }

  /** Offset, limit, maximum matches and cut-off go out together in one
      call, and only for a positive limit. */
  lemma LimitsRule(c: CriteriaState, index: string, offset: Option<int>, limit: int, maxMatches: int, cutOff: int)
    ensures SetLimits(offset, limit, maxMatches, cutOff) in Translate(c, index)
      <==> c.limit == Some(limit) && limit > 0 && offset == c.offset && maxMatches == c.maxMatches && cutOff == c.cutOff
  {
    InTranslate(c, index, SetLimits(offset, limit, maxMatches, cutOff));
  }

  /** Grouping by the criteria's attribute and function, leaving the group
      sort to the client, only for a non-empty attribute. */
  lemma GroupByRule(c: CriteriaState, index: string, attribute: string, func: Option<int>, groupSort: Option<string>)
    ensures SetGroupBy(attribute, func, groupSort) in Translate(c, index)
      <==> c.group != "" && attribute == c.group && func == c.groupFunc && groupSort == None
  {
    InTranslate(c, index, SetGroupBy(attribute, func, groupSort));
  }

  /** An ID range is emitted only when both bounds are set. */
  lemma IdRangeRule(c: CriteriaState, index: string, idMin: int, idMax: int)
    ensures SetIDRange(idMin, idMax) in Translate(c, index) <==> c.idMin == Some(idMin) && c.idMax == Some(idMax)
  {
    InTranslate(c, index, SetIDRange(idMin, idMax));
  }

  /** With only one ID bound set the range is dropped without an error:
      no ID-range directive, and the query is still added. */
  lemma PartialIdRangeSkipped(c: CriteriaState, index: string)
    requires c.idMin.Some? != c.idMax.Some?
    ensures forall d :: d in Translate(c, index) ==> !d.SetIDRange?
    ensures AddQuery(c.query, index) in Translate(c, index)
  {
    forall d | d in Translate(c, index) ensures !d.SetIDRange? {
      InTranslate(c, index, d);
    }
    InTranslate(c, index, AddQuery(c.query, index));
  }

  /** Field and index weights are always sent, once each, even when empty. */
  lemma WeightsRule(c: CriteriaState, index: string)
    ensures OfPhase(Translate(c, index), 8) == [SetFieldWeights(c.fieldWeights)]
    ensures OfPhase(Translate(c, index), 9) == [SetIndexWeights(c.indexWeights)]
  {
    TranslateByPhase(c, index, 8);
    TranslateByPhase(c, index, 9);
  }

  /** One `setFilter` per include filter, in array order, not negated; then
      one per exclude filter, negated. */
  lemma FiltersRule(c: CriteriaState, index: string)
    ensures var inc := OfPhase(Translate(c, index), 10);
      |inc| == |c.includeFilters| &&
      forall j :: 0 <= j < |inc| ==> inc[j] == SetFilter(c.includeFilters[j].key, c.includeFilters[j].value, false)
    ensures var exc := OfPhase(Translate(c, index), 11);
      |exc| == |c.excludeFilters| &&
      forall j :: 0 <= j < |exc| ==> exc[j] == SetFilter(c.excludeFilters[j].key, c.excludeFilters[j].value, true)
  {
    TranslateByPhase(c, index, 10);
    TranslateByPhase(c, index, 11);
  }

  /** One range directive per include range, in array order, then one per
      exclude range; each is the float variant exactly when a bound is a
      float. */
  lemma RangesRule(c: CriteriaState, index: string)
    ensures var inc := OfPhase(Translate(c, index), 12);
      |inc| == |c.includeRanges| &&
      forall j :: 0 <= j < |inc| ==> inc[j] == RangeDirective(c.includeRanges[j].key, c.includeRanges[j].value, false)
    ensures var exc := OfPhase(Translate(c, index), 13);
      |exc| == |c.excludeRanges| &&
      forall j :: 0 <= j < |exc| ==> exc[j] == RangeDirective(c.excludeRanges[j].key, c.excludeRanges[j].value, true)
  {
    TranslateByPhase(c, index, 12);
    TranslateByPhase(c, index, 13);
  }

  /** The query on the index is the last directive, and the only one of its
      kind. */
  lemma QueryLast(c: CriteriaState, index: string)
    ensures |Translate(c, index)| > 0
    ensures Translate(c, index)[|Translate(c, index)| - 1] == AddQuery(c.query, index)
    ensures forall j :: 0 <= j < |Translate(c, index)| - 1 ==> !Translate(c, index)[j].AddQuery?
  {
    var t, rs := Translate(c, index), Rules(c, index);
    var front := Flatten(rs, 14);
    assert t == front + [AddQuery(c.query, index)];
    RulesPhased(c, index);
    FlattenBelow(rs, 14);
    forall j | 0 <= j < |t| - 1 ensures !t[j].AddQuery? {
      assert t[j] == front[j];
    }
  }

  /** Ranges written through the criteria's adders always have integer
      bounds, so they never produce a float range directive. */
  lemma AdderRangesAreIntegral(criteria: SphinxCriteria, index: string)
    requires criteria.Valid()
    ensures forall d :: d in Translate(criteria.State(), index) ==> !d.SetFilterFloatRange?
  {
    var c := criteria.State();
    forall j | 0 <= j < |c.includeRanges|
      ensures !RangeDirectives(c.includeRanges, false)[j].SetFilterFloatRange?
    {
      assert c.includeRanges[j] in c.includeRanges;
    }
    forall j | 0 <= j < |c.excludeRanges|
      ensures !RangeDirectives(c.excludeRanges, true)[j].SetFilterFloatRange?
    {
      assert c.excludeRanges[j] in c.excludeRanges;
    }
    forall d | d in Translate(c, index) ensures !d.SetFilterFloatRange? {
      InTranslate(c, index, d);
      var s := Segment(c, index, Phase(d));
      var j :| 0 <= j < |s| && s[j] == d;
    }
  }

  /** A criteria object nobody has configured yields only the two (empty)
      weight settings and the empty query. */
  lemma DefaultCriteriaTrace(criteria: SphinxCriteria, index: string)
    requires criteria.IsDefault()
    ensures Translate(criteria.State(), index) == [SetFieldWeights([]), SetIndexWeights([]), AddQuery("", index)]
  {
    var c := criteria.State();
    TranslateAfter([], c, index);
    var settings := [] + MatchModeDirectives(c) + RankingModeDirectives(c) + SortModeDirectives(c)
      + SelectDirectives(c) + LimitsDirectives(c) + GroupByDirectives(c) + IdRangeDirectives(c);
    assert settings == [];
    assert FilterDirectives(c.includeFilters, false) == [] && FilterDirectives(c.excludeFilters, true) == [];
    assert RangeDirectives(c.includeRanges, false) == [] && RangeDirectives(c.excludeRanges, true) == [];
    assert [] + Translate(c, index) == Translate(c, index);
  }

}

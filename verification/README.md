# yii-sphinx: search criteria and their translation to a Sphinx client

This project models the core of the yii-sphinx extension, a Yii application
component that runs full-text searches on a Sphinx search engine.

- `SphinxCriteria` describes one search request:
  - match, ranking and sort modes;
  - select clause and limits;
  - grouping and ID range;
  - attribute filters and attribute ranges, each in an include and an exclude variant;
  - field weights and index weights;
  - the query text.

  Filter and range keys are attribute names, normalised with `strtolower(trim(...))`. Weight keys are kept as given, and weights are cast to int.
- The `Sphinx` component does four things:
  - It creates its `FSphinxClient` lazily, configured with the component's defaults.
  - It translates a criteria object, in a fixed order of rules, into calls on that client and ends with `addQuery`.
  - It runs the queries and turns an error, a warning or a non-array reply into an exception.
  - It returns the first result.

The model is written in the source's own form:

- `Criteria.SphinxCriteria` is a class. Its private arrays are fields that the adders reassign. `setFieldWeights` and `setIndexWeights` are loops that refill an emptied array.
- `Component.Sphinx` is a class whose `client` field is created lazily and reset by `Query`. `ApplyCriteria`, `SetFilters` and `SetFilterRanges` record calls on the client one at a time, in loops over the arrays.
- The client whose code is not available, `FSphinxClient`, is `Client.SphinxClient`. It records every call made on it as a `Directive` in its `log`.
- The pure parts are functions:
  - what a criteria object makes the component tell the client (`Translation.Translate`);
  - how a reply is checked (`Translation.CheckReply`).

  The methods are proved against these functions, and the properties of the translation are lemmas about them.

PHP arrays with string keys are ordered maps. Their iteration order decides the order of the calls, so they are modelled as lists of entries with unique keys (`PhpArrays.Assoc`). An assignment `$a[$k] = $v` is modelled by `PhpArrays.Put`: it replaces the value in place if the key exists, and otherwise appends the entry.

Module layout:

- `wrappers.dfy`: `Option` and `Result`.
- `php_strings.dfy`, `php_numbers.dfy`, `php_arrays.dfy`: the PHP built-ins the code relies on, namely `trim`, `strtolower`, string truthiness, `(int)`/`(float)` casts and array assignment.
- `criteria.dfy`: `SphinxCriteria`.
- `client.dfy`: the recording client and the reply it returns.
- `translation.dfy`: `applyCriteria`, `setFilters` and `setFilterRanges` as functions, plus `execute`'s checks.
- `translation_properties.dfy`: the rule-by-rule properties of the translation.
- `component.dfy`: the `Sphinx` component.

## Model

| member | source | states |
|---|---|---|
| Criteria.SphinxCriteria.constructor | src/components/SphinxCriteria.php:105-147 | A new criteria object has no filters, ranges or weights, its query is empty and its public settings are unset |
| Criteria.SphinxCriteria.AddInCondition | src/components/SphinxCriteria.php:154-158 | The include filters become the old ones with `values` written under `strtolower(trim(field))`: a new name is appended and an existing one is overwritten in place. No other array changes, and the keys stay unique and normalised |
| Criteria.SphinxCriteria.AddNotInCondition | src/components/SphinxCriteria.php:174-178 | The same as `AddInCondition`, on the exclude filters only |
| Criteria.SphinxCriteria.AddFieldWeight | src/components/SphinxCriteria.php:194-197 | The field weights get the int cast of `weight` under the name exactly as given. Nothing else changes |
| Criteria.SphinxCriteria.SetFieldWeights | src/components/SphinxCriteria.php:203-209 | The loop leaves exactly the given weights, int-cast, under the same names in the same order. No earlier entry survives |
| Criteria.SphinxCriteria.AddIndexWeight | src/components/SphinxCriteria.php:225-228 | The index weights get the int cast of `weight` under the index name as given |
| Criteria.SphinxCriteria.SetIndexWeights | src/components/SphinxCriteria.php:234-240 | The index weights are replaced by exactly the given ones, int-cast, in order |
| Criteria.SphinxCriteria.AddInRange | src/components/SphinxCriteria.php:257-264 | The include ranges get `{min: (int)min, max: (int)max}` under the normalised name, and the last write wins. Every stored range keeps integer bounds |
| Criteria.SphinxCriteria.AddNotInRange | src/components/SphinxCriteria.php:281-288 | The same as `AddInRange`, on the exclude ranges |
| Criteria.SphinxCriteria.SetQuery | src/components/SphinxCriteria.php:303-315 | After `setQuery(q)`, `getQuery()` returns `q` |
| Criteria.IntBounds | src/components/SphinxCriteria.php:260-263 | A stored range has integer bounds. Casting a stored bound to int again gives the cast of the given bound, and an integer bound is stored unchanged |
| Criteria.CastWeights | src/components/SphinxCriteria.php:203-209 | The weights after a bulk set have the keys of the given array in its order. An array without duplicate keys stays one |
| Criteria.CastWeightsView | src/components/SphinxCriteria.php:203-209 | The weights after a bulk set have the same keys as the given array, and each key looks up the int cast of its given weight, or nothing when it was not given |
| Criteria.SameNormalizedKeyOverwrites | src/components/SphinxCriteria.php:154-158 | Two writes under names with the same normal form leave one entry with the later value, as if only the second write had happened |
| Criteria.SameLogicalFieldOverwrites | src/components/SphinxCriteria.php:154-158 | Writing one attribute twice, in two casings and with blanks around either name, leaves one entry under the bare lower-cased name with the later value |
| Criteria.RepeatedConditionScenario | src/components/SphinxCriteria.php:154-167 | `addInCondition("size", [1])` then `addInCondition(" size\t", [2])` leaves exactly one filter, `size => [2]` |
| Criteria.WeightNamesScenario | src/components/SphinxCriteria.php:194-218 | `addFieldWeight("Title", 2)` then `addFieldWeight("title", -3.7)` leaves two weights, `Title => 2` and `title => -3`. The names are not normalised, and the float is truncated toward zero |
| PhpArrays.Put | src/components/SphinxCriteria.php:157 | After `$a[$k] = $v`, `$a[$k]` is `$v` |
| PhpArrays.PutKeys | src/components/SphinxCriteria.php:157 | An assignment keeps the existing keys in their order and appends a new key at the end |
| PhpArrays.PutKeepsOthers | src/components/SphinxCriteria.php:157 | An assignment leaves the value of every other key unchanged |
| PhpArrays.PutTwice | src/components/SphinxCriteria.php:157 | Two assignments to one key equal the second alone |
| PhpArrays.PutUnique | src/components/SphinxCriteria.php:157 | An assignment never creates a duplicate key |
| PhpArrays.PutFresh | src/components/SphinxCriteria.php:205-208 | Assigning a key that is not yet present appends exactly one entry |
| PhpStrings.Trim | src/components/SphinxCriteria.php:156 | `trim` returns the string without an all-trimmable prefix and an all-trimmable suffix, and what is left neither starts nor ends with a trimmable character |
| PhpStrings.Lower | src/components/SphinxCriteria.php:156 | `strtolower` keeps the length, turns each upper-case ASCII letter into its lower-case letter (32 code points up) and changes no other character |
| PhpStrings.Normalize | src/components/SphinxCriteria.php:156 | A normalised key has no upper-case ASCII letter and no trimmable character at either end |
| PhpStrings.Truthy | src/components/Sphinx.php:123-126 | The empty string and `"0"` are false in a condition. Every other one-character string and every longer string is true |
| PhpStrings.NormalizeFixedPoint | src/components/SphinxCriteria.php:156 | A name with no upper-case ASCII letter and no trimmable character at either end is its own normal form, so distinct such names stay distinct keys |
| PhpStrings.NormalizeIdempotent | src/components/SphinxCriteria.php:156 | A normalised name normalises to itself |
| PhpStrings.NormalizeIgnoresCase | src/components/SphinxCriteria.php:156 | Names that differ only in ASCII case normalise alike |
| PhpStrings.NormalizeIgnoresPadding | src/components/SphinxCriteria.php:156 | Leading and trailing whitespace of the kinds `trim` strips does not change the normalised name |
| PhpStrings.TrimLower | src/components/SphinxCriteria.php:156 | Trimming and lower-casing commute |
| PhpNumbers.IntCast | src/components/SphinxCriteria.php:196 | `(int)` keeps an integer and truncates a float toward zero |
| PhpNumbers.FloatCast | src/components/Sphinx.php:214 | `(float)` keeps a float. An integer becomes a whole number, and `(int)` of the result gives back what `(int)` of the input gives, so the round trip keeps the integer |
| Client.SphinxClient.constructor | src/components/Sphinx.php:87 | A new client has received no calls |
| Client.SphinxClient.Record | src/components/Sphinx.php:88-92 | Each call on the client is appended to its log, and nothing earlier changes |
| Component.Sphinx.constructor | src/components/Sphinx.php:23-78 | The configuration defaults are host `127.0.0.1`, port 9312, extended match mode, proximity-BM25 ranking, relevance sort, group-by-day, group sort `@group desc`, an empty sort-by and no indices. There is no client yet |
| Component.Sphinx.Defaults | src/components/Sphinx.php:88-92 | A new client gets five calls: the server first, then one call each of four different kinds, all settings that the criteria's mode and grouping rules may override later |
| Component.Sphinx.GetClient | src/components/Sphinx.php:84-95 | A client is created only when none is cached. A new client has received exactly `setServer`, `setMatchMode`, `setSortMode`, `setRankingMode` and `setGroupBy('', ...)`, in that order. A cached client is returned untouched |
| Component.LazyClientScenario | src/components/Sphinx.php:84-95 | For a new component, two `getClient` calls return the same client, and its log is exactly the five default calls with the default values |
| Component.Sphinx.Query | src/components/Sphinx.php:103-111 | With `resetClient`, or when there was no client, the query runs on a new client whose log is the defaults followed by the criteria's translation. The old client is untouched. Otherwise the translation is appended to the existing client's log. The result is element 0 of the checked reply |
| Component.Sphinx.Execute | src/components/Sphinx.php:118-134 | The result is the checked reply. The client's log is not extended |
| Component.Sphinx.ApplyCriteria | src/components/Sphinx.php:141-189 | The client's log is extended by exactly `Translate(criteria, index)` |
| Component.Sphinx.ApplyModes | src/components/Sphinx.php:145-153 | Match, ranking and sort mode are passed on, in that order, each only when set |
| Component.Sphinx.ApplyResultShape | src/components/Sphinx.php:155-177 | Select, limits, group-by and ID range are passed on, in that order, each only under its guard |
| Component.Sphinx.SetFilters | src/components/Sphinx.php:196-202 | The loop records one `setFilter(field, values, exclude)` per entry, in array order, on the lazily obtained client |
| Component.Sphinx.SetFilterRanges | src/components/Sphinx.php:209-219 | The loop records one range call per entry, in array order |
| Translation.RangeDirective | src/components/Sphinx.php:213-217 | A range gives the float variant exactly when a bound is a float, and the int variant exactly when both are ints. The bounds are cast accordingly and the exclude flag is passed through |
| Translation.Translate | src/components/Sphinx.php:141-189 | Everything `applyCriteria` tells the client is never empty, and it ends with `addQuery(query, index)` |
| Translation.FilterDirectives | src/components/Sphinx.php:196-202 | `setFilters` makes one call per array entry, of the include or exclude filter kind as `exclude` says, naming that entry's attribute |
| Translation.RangeDirectives | src/components/Sphinx.php:209-219 | `setFilterRanges` makes one call per array entry, of the include or exclude range kind as `exclude` says, naming that entry's attribute |
| Translation.TranslateAfter | src/components/Sphinx.php:141-189 | The translation is the rules' outputs in source order: the seven guarded settings, field weights, index weights, include filters, exclude filters, include ranges, exclude ranges, then the query |
| Translation.CheckReply | src/components/Sphinx.php:118-134 | A truthy last error wins, then a truthy last warning, then a non-array reply gives `Sphinx client returned a non-array.`. Only when all three checks pass are the results returned. Every error message is truthy |
| Translation.QueryOutcome | src/components/Sphinx.php:109-134 | `query` fails exactly when the reply has a truthy error, a truthy warning or no result array. The failure carries a truthy message: the error, the warning or `Sphinx client returned a non-array.`. Otherwise it returns null exactly for an empty result array, and a returned result is element 0 |
| TranslationProperties.RulesPhased | src/components/Sphinx.php:145-188 | Every rule emits only calls of its own kind |
| TranslationProperties.TranslateOrdered | src/components/Sphinx.php:141-189 | The kinds of call never go backwards along the translation |
| TranslationProperties.TranslateByPhase | src/components/Sphinx.php:141-189 | The calls of each kind are exactly what that kind's rule emits, in its order |
| TranslationProperties.InTranslate | src/components/Sphinx.php:141-189 | A call occurs in the translation if and only if its kind's rule emits it |
| TranslationProperties.MatchModeRule | src/components/Sphinx.php:145-147 | `setMatchMode(m)` occurs if and only if the criteria's match mode is the integer `m` |
| TranslationProperties.RankingModeRule | src/components/Sphinx.php:148-150 | `setRankingMode(r)` occurs if and only if the criteria's rank mode is `r` |
| TranslationProperties.SortModeRule | src/components/Sphinx.php:151-153 | `setSortMode(m, by)` occurs if and only if the sort mode is `m` and `by` is the criteria's order clause |
| TranslationProperties.SelectRule | src/components/Sphinx.php:155-157 | `setSelect(s)` occurs if and only if the select clause is non-empty and equals `s` |
| TranslationProperties.LimitsRule | src/components/Sphinx.php:159-166 | `setLimits(offset, limit, maxMatches, cutOff)` occurs, as one call with the criteria's four values, if and only if the limit is positive |
| TranslationProperties.GroupByRule | src/components/Sphinx.php:168-170 | `setGroupBy(group, groupFunc)` occurs, with the group sort left to the client, if and only if the group attribute is non-empty |
| TranslationProperties.IdRangeRule | src/components/Sphinx.php:172-177 | `setIDRange(min, max)` occurs if and only if both ID bounds are set |
| TranslationProperties.PartialIdRangeSkipped | src/components/Sphinx.php:172-177 | With only one ID bound set, no ID range is emitted and the query is still added, with no error |
| TranslationProperties.WeightsRule | src/components/Sphinx.php:179-180 | Field weights and index weights are each sent exactly once, even when empty |
| TranslationProperties.FiltersRule | src/components/Sphinx.php:182-183 | Include filters give one non-negated `setFilter` per entry in array order, and exclude filters one negated `setFilter` each |
| TranslationProperties.RangesRule | src/components/Sphinx.php:185-186 | Include ranges and then exclude ranges each give one range call per entry, in array order |
| TranslationProperties.QueryLast | src/components/Sphinx.php:188 | The last call is `addQuery(query, index)`, and no earlier call is an `addQuery` |
| TranslationProperties.AdderRangesAreIntegral | src/components/SphinxCriteria.php:257-288 | Ranges added through the criteria's adders never produce a float range call |
| TranslationProperties.DefaultCriteriaTrace | src/components/Sphinx.php:141-189 | An unconfigured criteria object translates to exactly empty field weights, empty index weights and `addQuery('', index)` |

## Left out

- `SphinxDataProvider` is not part of this model. It is framework glue that depends on Yii classes not shown, and its key and count methods are empty.
- The internals of `FSphinxClient` (network round trip, wire encoding, `setServer` and friends) are not modelled. The client only records the calls made on it. What `runQueries`, `getLastError` and `getLastWarning` return is the parameter `reply`.
- `Component.Sphinx.Execute`: the effect of `runQueries` on the client's own query queue is not modelled. The log records only the component's `setX` and `addQuery` calls; `runQueries`, `getLastError` and `getLastWarning` are not recorded.
- The values of the `SPH_*` constants appear only as the component's defaults.
- Floating-point numbers are Dafny `real`s. Only the int/float distinction and the casts are modelled, with no float arithmetic.
- Integers are unbounded. PHP's 64-bit integer range is not modelled, nor is the result of `(int)` on a float outside that range.
- PHP turns numeric-string array keys into integers. Keys here stay strings.
- Values are restricted to the types each setting is meant to hold, so PHP's casts of other types are not modelled:
  - Weights and range bounds are int or float (`PhpNumbers.Num`). A string weight or bound, such as `(int)"12abc"` giving 12, is not modelled.
  - `limit` and `offset` are int or null. A string limit such as `"10"`, which passes the `(int)` test at src/components/Sphinx.php:159 and is then passed on uncast, is not modelled.
  - `select`, `group` and `order` are strings. A null `select` or `group` is the empty string, which has the same `strlen`. A non-string one, such as an int with `strlen(5) == 1`, is not modelled.
  - Modes and ID bounds: a non-int value is `None`, which the `is_int` tests at src/components/Sphinx.php:145-153 and :172 treat like null.
  - The group function is int or null. A non-int group function, which src/components/Sphinx.php:169 passes on unchanged, is not modelled.
  - Filter values are lists of ints.
- `PhpStrings.Lower` lower-cases ASCII letters only, like `strtolower` in current PHP. Locale-dependent lower-casing is not modelled.
- The getters (`GetInConditions` and the rest) are functions that return the stored array. They carry no contract of their own; `SetQuery` and the two scenarios state what they return.
- `Component.Sphinx.ApplyModes` and `Component.Sphinx.ApplyResultShape` are the first seven guarded rules of `applyCriteria`, split off as two methods. `ApplyCriteria` calls them in place of inline code, so the call order is the same.
- A partial ID range (only one of `idMin`/`idMax` set) is skipped silently, as the code does. src/components/Sphinx.php:172 raises nothing, and the model follows the code.
- `Component.Sphinx.Query`: reading `$results[0]` on an empty result array yields null in PHP, with a notice. Here it is `None`, and the notice is not modelled.
- Yii's `CComponent` magic properties and component configuration are not modelled. `CException` is an `Err` carrying its message.

/**
 * The search-engine client (`FSphinxClient`), whose code is not part of this
 * model. It is seen only through the calls made on it: every `setX` and
 * `addQuery` call is recorded, in order, as a directive in its log. What a
 * round trip to the engine returns is given from outside (`Reply`).
 */
module Client {
  import opened Wrappers
  import opened PhpArrays

  /** One call on the client, with its arguments. `None` stands for an
      argument the caller leaves out (the client's own default applies) and
      equally for an explicit null, such as a criteria's unset `offset` or
      `groupFunc`. */
  datatype Directive =
    | SetServer(host: string, port: int)
    | SetMatchMode(mode: int)
    | SetRankingMode(ranker: int)
    | SetSortMode(sortMode: int, sortBy: string)
    | SetSelect(select: string)
    | SetLimits(offset: Option<int>, limit: int, maxMatches: int, cutOff: int)
    | SetGroupBy(attribute: string, func: Option<int>, groupSort: Option<string>)
    | SetIDRange(idMin: int, idMax: int)
    | SetFieldWeights(fieldWeights: Assoc<int>)
    | SetIndexWeights(indexWeights: Assoc<int>)
    | SetFilter(attribute: string, values: seq<int>, exclude: bool)
    | SetFilterRange(attribute: string, min: int, max: int, exclude: bool)
    | SetFilterFloatRange(attribute: string, fmin: real, fmax: real, exclude: bool)
    | AddQuery(query: string, index: string)

  /** What the client reports after `runQueries`: the results (`None` when
      they are not an array), and its last error and last warning. */
  datatype Reply<R> = Reply(results: Option<seq<R>>, lastError: string, lastWarning: string)

  class SphinxClient {
    /** The calls made on this client so far, oldest first. */
    var log: seq<Directive>

    constructor ()
      ensures log == []
    {
      log := [];
    }

    /** Any `setX` or `addQuery` call. */
    method Record(d: Directive)
      modifies this
      ensures log == old(log) + [d]
    {
      log := log + [d];
    }
  }
}

/**
 * The request record the helpers read and update in place: its method, its
 * query parameters, the data a handler fetched, the accumulated error, and
 * the expand plan that lib/expandHelper.js attaches.
 */
module Requests {
  import opened Wrappers

  /** A query parameter: one string (`?k=v`) or several (`?k[]=a&k[]=b`). */
  datatype QueryValue = Single(text: string) | Multiple(items: seq<string>)

  /** JavaScript truthiness of a query value: only the empty string is falsy; an array never is. */
  predicate Truthy(v: QueryValue) {
    v.Multiple? || v.text != ""
  }

  /** What a handler put under `req.data.content`: one record or a list of them. */
  datatype Content = Record(fields: map<string, string>) | Records(rows: seq<map<string, string>>)

  /** `req.data`: the response payload, whose `content` may be absent. */
  datatype Payload = Payload(content: Option<Content>)

  /**
   * `req.error`: an optional message, the status code every writer sets, and
   * the optional list of validation messages.
   */
  datatype ReqError = ReqError(message: Option<string>, code: int, errors: Option<seq<string>>)

  /** `req.expandQuery`: the rules of each clause, and the depth recorded per root model. */
  datatype ExpandQuery = ExpandQuery(params: seq<seq<string>>, depth: map<string, int>)

  class Request {
    var httpMethod: string
    var query: map<string, QueryValue>
    var data: Option<Payload>
    var error: Option<ReqError>
    var expandQuery: Option<ExpandQuery>

    /** A request as it arrives: no data, no error, no expand plan yet. */
    constructor (httpMethod: string, query: map<string, QueryValue>)
      ensures this.httpMethod == httpMethod && this.query == query
      ensures data.None? && error.None? && expandQuery.None?
    {
      this.httpMethod := httpMethod;
      this.query := query;
      data := None;
      error := None;
      expandQuery := None;
    }
  }
}

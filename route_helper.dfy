/**
 * lib/routeHelper.js: the error accumulator every other helper reports
 * through (`addError`, `addErrorMessage`, `addValidationError`,
 * `errorHandler`), the choice of response status and body (`renderJson`),
 * and the name of a reference id parameter (`getRefIdField`).
 */
module RouteHelper {
  import opened Wrappers
  import opened Strings
  import opened Requests
  import Schema

  /**
   * What a caller may hand to `addError`: an array (what the ORM reports), an
   * Error-like object with an optional message and an optional `errors`
   * array (each entry given by its message), or a plain string.
   */
  datatype Thrown =
    | Batch(items: seq<Thrown>)
    | Fault(message: Option<string>, errors: Option<seq<string>>)
    | Text(text: string)

  /** `err.message`: only an Error-like object has one. */
  function MessageOf(t: Thrown): Option<string> {
    if t.Fault? then t.message else None
  }

  /** JavaScript truthiness of a thrown value: only the empty string is falsy. */
  predicate ThrownTruthy(t: Thrown) {
    !(t.Text? && t.text == "")
  }

  /** `errCode || req.error.code || 500` right after `req.error` was reset to `{}`. */
  function ErrorCode(errCode: Option<int>): (c: int)
    ensures c != 0
    ensures errCode.Some? && errCode.value != 0 ==> c == errCode.value
    ensures errCode.None? || errCode.value == 0 ==> c == 500
  {
    if errCode.Some? && errCode.value != 0 then errCode.value else 500
  }

  /** The validation messages accumulated so far. */
  function ValidationMessages(e: Option<ReqError>): seq<string> {
    if e.Some? && e.value.errors.Some? then e.value.errors.value else []
  }

  /** The message of the current error, if any. */
  function ErrorMessage(e: Option<ReqError>): Option<string> {
    if e.Some? then e.value.message else None
  }

  /**
   * The error after `addValidationError(req, msg)`: the existing error object
   * is kept, `msg` is appended to its list and the code becomes 400.
   */
  function WithValidationError(e: Option<ReqError>, msg: string): (r: ReqError)
    ensures r.code == 400
    ensures r.errors == Some(ValidationMessages(e) + [msg])
    ensures r.message == ErrorMessage(e)
  {
    var base := e.GetOr(ReqError(None, 0, None));
    ReqError(base.message, 400, Some(base.errors.GetOr([]) + [msg]))
  }

  /** The error after `addValidationError` for each of `msgs` in turn. */
  function WithValidationErrors(e: Option<ReqError>, msgs: seq<string>): (r: Option<ReqError>)
    ensures msgs == [] ==> r == e
    ensures msgs != [] ==> r.Some? && r.value.code == 400
    ensures ValidationMessages(r) == ValidationMessages(e) + msgs
    ensures ErrorMessage(r) == ErrorMessage(e)
  {
    if msgs == [] then e
    else
      var r := Some(WithValidationError(WithValidationErrors(e, msgs[..|msgs| - 1]), msgs[|msgs| - 1]));
      assert msgs == msgs[..|msgs| - 1] + [msgs[|msgs| - 1]];
      r
  }

  /** Reporting `a` and then `b` is reporting `a + b`. */
  lemma {:induction false} WithValidationErrorsConcat(e: Option<ReqError>, a: seq<string>, b: seq<string>)
    ensures WithValidationErrors(WithValidationErrors(e, a), b) == WithValidationErrors(e, a + b)
    decreases |b|
  {
    if b != [] {
      var b' := b[..|b| - 1];
      WithValidationErrorsConcat(e, a, b');
      assert (a + b)[..|a + b| - 1] == a + b';
      assert (a + b)[|a + b| - 1] == b[|b| - 1];
    } else {
      assert a + b == a;
    }
  }

  /**
   * The error that `addError(req, err, errCode)` leaves, whatever was there
   * before: the message of an array's first element; else a truthy message;
   * else a copied `errors` list with no message; else a string as the
   * message; else 'request failed'.
   */
  function FromThrown(err: Thrown, errCode: Option<int>): (r: ReqError)
    requires err.Batch? ==> |err.items| > 0
    ensures r.code == ErrorCode(errCode)
    ensures err.Batch? ==> r.message == MessageOf(err.items[0]) && r.errors.None?
    ensures err.Fault? && err.message.Some? && err.message.value != "" ==> r.message == err.message && r.errors.None?
    ensures err.Fault? && (err.message.None? || err.message.value == "") && err.errors.Some?
            ==> r.message.None? && r.errors == err.errors
    ensures err.Text? ==> r.message == Some(err.text) && r.errors.None?
    ensures err.Fault? && (err.message.None? || err.message.value == "") && err.errors.None?
            ==> r.message == Some("request failed") && r.errors.None?
  {
    var code := ErrorCode(errCode);
    match err
    case Batch(items) => ReqError(MessageOf(items[0]), code, None)
    case Fault(message, errors) =>
      if message.Some? && message.value != "" then ReqError(message, code, None)
      else if errors.Some? then ReqError(None, code, errors)
      else ReqError(Some("request failed"), code, None)
    case Text(text) => ReqError(Some(text), code, None)
  }

  /** `addValidationError`: keep the error object, append `msg`, set code 400. */
  method AddValidationError(req: Request, msg: string)
    modifies req`error
    ensures req.error == Some(WithValidationError(old(req.error), msg))
  {
    var e := req.error.GetOr(ReqError(None, 0, None));
    var errors := e.errors.GetOr([]);
    req.error := Some(ReqError(e.message, 400, Some(errors + [msg])));
  }

  /** `addError`: replace the error wholesale, discarding accumulated validation messages. */
  method AddError(req: Request, err: Thrown, errCode: Option<int>)
    requires err.Batch? ==> |err.items| > 0
    modifies req`error
    ensures req.error == Some(FromThrown(err, errCode))
  {
    var message: Option<string> := None;
    var errors: Option<seq<string>> := None;
    if err.Batch? {
      message := MessageOf(err.items[0]);
    } else if err.Fault? && err.message.Some? && err.message.value != "" {
      message := err.message;
    } else if err.Fault? && err.errors.Some? {
      errors := err.errors;
    } else if err.Text? {
      message := Some(err.text);
    } else {
      message := Some("request failed");
    }
    req.error := Some(ReqError(message, ErrorCode(errCode), errors));
  }

  /** `addErrorMessage` (defined twice in the source, identically): replace the error with a message. */
  method AddErrorMessage(req: Request, errMsg: string, errCode: Option<int>)
    modifies req`error
    ensures req.error == Some(ReqError(Some(errMsg), ErrorCode(errCode), None))
    ensures ValidationMessages(req.error) == []
  {
    req.error := Some(ReqError(Some(errMsg), ErrorCode(errCode), None));
  }

  /** `errorHandler`: record a truthy error with code 400; otherwise change nothing. */
  method ErrorHandler(err: Option<Thrown>, req: Request)
    requires err.Some? && err.value.Batch? ==> |err.value.items| > 0
    modifies req`error
    ensures err.Some? && ThrownTruthy(err.value) ==> req.error == Some(FromThrown(err.value, Some(400)))
    ensures err.Some? && ThrownTruthy(err.value) ==> req.error.value.code == 400
    ensures !(err.Some? && ThrownTruthy(err.value)) ==> req.error == old(req.error)
  {
    if err.Some? && ThrownTruthy(err.value) {
      AddError(req, err.value, Some(400));
    }
  }

  /** The first character lower-cased (ASCII), the rest kept, then `Id`. */
  function GetRefIdField(name: string): (r: string)
    ensures |r| == |name| + 2
    ensures r[|name|..] == "Id"
    ensures |name| > 0 ==> r[0] == Lower(name[0]) && r[1..|name|] == name[1..]
  {
    (if |name| > 0 then [Lower(name[0])] + name[1..] else "") + "Id"
  }

  /** The reference id of a Discussion is the Message attribute the expand grammar accepts as `discussion`. */
  lemma RefIdFieldIsExpandForeignKey()
    ensures GetRefIdField("Discussion") == "discussionId"
    ensures Schema.IsForeignKey("discussion", "Message") == Some(GetRefIdField("Discussion"))
  {
    assert Lower('D') == 'd';
    assert "Discussion"[1..] == "iscussion";
    assert [Lower('D')] + "iscussion" + "Id" == "discussionId";
    assert "discussion" + "Id" == "discussionId";
  }

  datatype Body =
    | Outcome(success: bool, status: int, content: Option<string>)
    | DataBody(payload: Payload)

  datatype Response = Response(status: int, body: Body)

  /** The validation messages joined the way the response shows them. */
  function JoinMessages(msgs: seq<string>): string {
    JoinBy(msgs, ". ")
  }

  /**
   * `renderJson`: an error wins (its list of messages if it has one, else its
   * message), then data with 200, then 404 'Resource is not found'.
   */
  function RenderJson(error: Option<ReqError>, data: Option<Payload>): (r: Response)
    ensures error.Some? ==> r.status == error.value.code && r.body.Outcome? && !r.body.success && r.body.status == r.status
    ensures error.Some? && error.value.errors.Some? ==> r.body.content == Some(JoinMessages(error.value.errors.value))
    ensures error.Some? && error.value.errors.None? ==> r.body.content == error.value.message
    ensures error.None? && data.Some? ==> r == Response(200, DataBody(data.value))
    ensures error.None? && data.None? ==> r == Response(404, Outcome(false, 404, Some("Resource is not found")))
  {
    if error.Some? then
      var e := error.value;
      if e.errors.Some? then Response(e.code, Outcome(false, e.code, Some(JoinMessages(e.errors.value))))
      else Response(e.code, Outcome(false, e.code, e.message))
    else if data.Some? then Response(200, DataBody(data.value))
    else Response(404, Outcome(false, 404, Some("Resource is not found")))
  }

  /**
   * Validation messages reported one by one render as a 400 whose content is
   * every message, in order, joined by '. ' — whatever data is present.
   */
  lemma RenderValidationErrors(e: Option<ReqError>, msgs: seq<string>, data: Option<Payload>)
    requires msgs != []
    ensures RenderJson(WithValidationErrors(e, msgs), data)
            == Response(400, Outcome(false, 400, Some(JoinMessages(ValidationMessages(e) + msgs))))
  {
    var r := WithValidationErrors(e, msgs);
    assert r.value.errors.Some? by {
      assert ValidationMessages(r) != [];
    }
  }

  /**
   * After `addError`, the response carries the given code (or 500) and the
   * selected message; earlier validation messages do not appear.
   */
  lemma RenderAfterAddError(before: Option<ReqError>, err: Thrown, errCode: Option<int>, data: Option<Payload>)
    requires err.Batch? ==> |err.items| > 0
    requires !(err.Fault? && (err.message.None? || err.message.value == "") && err.errors.Some?)
    ensures RenderJson(Some(FromThrown(err, errCode)), data).status == ErrorCode(errCode)
    ensures RenderJson(Some(FromThrown(err, errCode)), data).body.content == FromThrown(err, errCode).message
    ensures err.Text? ==> RenderJson(Some(FromThrown(err, errCode)), data).body.content == Some(err.text)
  {
  }
}

/**
 * lib/paramHelper.js: the parsers for the `offset`, `limit`, `orderBy` and
 * `filter` query parameters. Each writes one slot of the caller's filters
 * object or reports validation errors on the request.
 */
module ParamHelper {
  import opened Wrappers
  import opened Strings
  import opened Schema
  import opened Requests
  import opened RouteHelper

  /** A condition of the `where` clause: `=` (one value or an `in(...)` list), `<` or `>`. */
  datatype Condition = Equals(value: string) | OneOf(values: seq<string>) | Below(bound: int) | Above(bound: int)

  /** The filters object the parsers write into: `where`, `offset`, `limit` and `order`. */
  class Filters {
    var where: map<string, Condition>
    var offset: Option<int>
    var limit: Option<int>
    var order: Option<string>

    /** `{ where: {} }`: no condition, no paging, no ordering. */
    constructor ()
      ensures where == map[] && offset.None? && limit.None? && order.None?
    {
      where := map[];
      offset := None;
      limit := None;
      order := None;
    }
  }

  /** The verdict of a parser on its parameter: the value it stores, or the message it reports. */
  datatype Outcome<T> = Accept(value: T) | Reject(message: string)

  function NotValidNumber(text: string): string {
    text + " is not a valid number"
  }

  function NotValidField(field: string, m: ModelInfo): string {
    field + " is not a valid field in the " + m.name
  }

  // ---------------------------------------------------------------------------
  // parseLimitOffset

  /** The two paging parameters `parseLimitOffset` is called for. */
  datatype PageKey = Offset | Limit

  function KeyName(key: PageKey): string {
    match key
    case Offset => "offset"
    case Limit => "limit"
  }

  /** `parseLimitOffset`'s verdict: empty, repeated, or not a number is reported; otherwise the number. */
  function LimitOffsetOutcome(key: PageKey, value: QueryValue): (r: Outcome<int>)
    ensures r.Accept? <==> value.Single? && value.text != "" && ParseNumber(value.text).Some?
    ensures r.Accept? ==> ParseNumber(value.text) == Some(r.value)
  {
    if !Truthy(value) then Reject("Value of " + KeyName(key) + " parameter is empty")
    else if value.Multiple? then
      Reject("Multiple " + KeyName(key) + " parameters are provided, only one " + KeyName(key) + " is supported")
    else
      match ParseNumber(value.text)
      case None => Reject(NotValidNumber(value.text))
      case Some(n) => Accept(n)
  }

  /** A number written out in decimal is accepted as that number. */
  lemma LimitOffsetOfShow(key: PageKey, n: int)
    ensures LimitOffsetOutcome(key, Single(Show(n))) == Accept(n)
  {
    ParseShow(n);
    assert Show(n) != "" by {
      assert |ShowNat(if n < 0 then -n else n)| >= 1;
    }
  }

  /**
   * `parseLimitOffset`: report an empty, repeated or non-numeric value and
   * leave the filters alone; otherwise store the number under the key.
   */
  method ParseLimitOffset(req: Request, filters: Filters, key: PageKey, value: QueryValue)
    modifies req`error, filters`offset, filters`limit
    ensures match LimitOffsetOutcome(key, value)
            case Reject(msg) =>
              && req.error == Some(WithValidationError(old(req.error), msg))
              && filters.offset == old(filters.offset) && filters.limit == old(filters.limit)
            case Accept(n) =>
              && req.error == old(req.error)
              && filters.offset == (if key == Offset then Some(n) else old(filters.offset))
              && filters.limit == (if key == Limit then Some(n) else old(filters.limit))
  {
    if !Truthy(value) {
      AddValidationError(req, "Value of " + KeyName(key) + " parameter is empty");
      return;
    }
    if value.Multiple? {
      AddValidationError(req, "Multiple " + KeyName(key) + " parameters are provided, only one " + KeyName(key) + " is supported");
      return;
    }
    var intValue := ParseNumber(value.text);
    if intValue.None? {
      AddValidationError(req, NotValidNumber(value.text));
      return;
    }
    if key == Offset {
      filters.offset := Some(intValue.value);
    } else {
      filters.limit := Some(intValue.value);
    }
  }

  // ---------------------------------------------------------------------------
  // parseOrderBy

  /** `'"' + field + '"'`. */
  function Quote(field: string): string {
    "\"" + field + "\""
  }

  /** `asc` or `desc`, in any (ASCII) casing. */
  predicate IsDirection(token: string) {
    LowerString(token) == "asc" || LowerString(token) == "desc"
  }

  /** `first` or `last`, in any (ASCII) casing. */
  predicate IsNullsPlacement(token: string) {
    LowerString(token) == "first" || LowerString(token) == "last"
  }

  function NotSupported(token: string): string {
    token + " is not supported in orderBy parameter"
  }

  /**
   * `parseOrderBy`'s verdict: an empty or repeated parameter is reported;
   * otherwise the value is judged by its white-space separated tokens.
   */
  function OrderByOutcome(m: ModelInfo, orderParam: QueryValue): Outcome<string> {
    if !Truthy(orderParam) then Reject("Value of orderBy parameter is empty")
    else if orderParam.Multiple? then Reject("Multiple orderBy parameters are provided, only one orderBy is supported")
    else OrderByTokens(m, orderParam.text, SplitWs(orderParam.text))
  }

  /**
   * The verdict on the tokens `parts` of the value `text`: the first token
   * must be an attribute; three tokens are refused; a second token must be a
   * direction; with four tokens the third must be `nulls` and the fourth
   * `first` or `last`. Tokens after the fourth are not looked at.
   */
  function OrderByTokens(m: ModelInfo, text: string, parts: seq<string>): Outcome<string>
    requires |parts| >= 1
  {
    if parts[0] !in m.attributes then Reject(NotValidField(parts[0], m))
    else if |parts| == 3 then Reject("Invalid orderBy parameter: " + text)
    else if |parts| >= 2 && parts[1] != "" && !IsDirection(parts[1]) then Reject(NotSupported(parts[1]))
    else if |parts| == 4 && LowerString(parts[2]) != "nulls" then Reject(NotSupported(parts[2]))
    else if |parts| == 4 && !IsNullsPlacement(parts[3]) then Reject(NotSupported(parts[3]))
    else
      var withDirection := if |parts| >= 2 && parts[1] != "" then Quote(parts[0]) + " " + parts[1] else Quote(parts[0]);
      Accept(if |parts| == 4 then withDirection + " " + parts[2] + " " + parts[3] else withDirection)
  }

  /**
   * `parseOrderBy`: report the first problem and leave `order` alone, or set
   * `order` to the quoted field followed by the direction and nulls placement
   * as the caller wrote them.
   */
  method ParseOrderBy(m: ModelInfo, req: Request, filters: Filters, orderParam: QueryValue)
    modifies req`error, filters`order
    ensures match OrderByOutcome(m, orderParam)
            case Reject(msg) =>
              req.error == Some(WithValidationError(old(req.error), msg)) && filters.order == old(filters.order)
            case Accept(o) =>
              req.error == old(req.error) && filters.order == Some(o)
  {
    if !Truthy(orderParam) {
      AddValidationError(req, "Value of orderBy parameter is empty");
      return;
    }
    if orderParam.Multiple? {
      AddValidationError(req, "Multiple orderBy parameters are provided, only one orderBy is supported");
      return;
    }
    var orderParts := SplitWs(orderParam.text);
    assert OrderByOutcome(m, orderParam) == OrderByTokens(m, orderParam.text, orderParts);
    ParseOrderTokens(m, req, filters, orderParam.text, orderParts);
  }

  /** The rest of `parseOrderBy`, once the value is known to be one string split into `orderParts`. */
  method ParseOrderTokens(m: ModelInfo, req: Request, filters: Filters, text: string, orderParts: seq<string>)
    requires |orderParts| >= 1
    modifies req`error, filters`order
    ensures match OrderByTokens(m, text, orderParts)
            case Reject(msg) =>
              req.error == Some(WithValidationError(old(req.error), msg)) && filters.order == old(filters.order)
            case Accept(o) =>
              req.error == old(req.error) && filters.order == Some(o)
  {
    if orderParts[0] !in m.attributes {
      AddValidationError(req, NotValidField(orderParts[0], m));
      return;
    }
    var orderFilter := Quote(orderParts[0]);
    if |orderParts| == 3 {
      AddValidationError(req, "Invalid orderBy parameter: " + text);
      return;
    }
    if |orderParts| >= 2 && orderParts[1] != "" {
      if !IsDirection(orderParts[1]) {
        AddValidationError(req, NotSupported(orderParts[1]));
        return;
      }
      orderFilter := orderFilter + " " + orderParts[1];
    }
    if |orderParts| == 4 {
      if LowerString(orderParts[2]) != "nulls" {
        AddValidationError(req, NotSupported(orderParts[2]));
        return;
      }
      if !IsNullsPlacement(orderParts[3]) {
        AddValidationError(req, NotSupported(orderParts[3]));
        return;
      }
      orderFilter := orderFilter + " " + orderParts[2] + " " + orderParts[3];
    }
    filters.order := Some(orderFilter);
  }

  /** A token of the orderBy grammar: non-empty and free of white space. */
  predicate IsToken(t: string) {
    t != [] && NoSpace(t)
  }

  /** Tokens joined by single spaces split back into those tokens. */
  lemma SplitTokens(tokens: seq<string>)
    requires |tokens| >= 1
    requires forall k :: 0 <= k < |tokens| ==> IsToken(tokens[k])
    ensures SplitWs(JoinBy(tokens, " ")) == tokens
  {
    SplitWsJoin(tokens);
  }

  /** A bare attribute orders by that attribute. */
  lemma OrderByField(m: ModelInfo, text: string, field: string)
    requires SplitWs(text) == [field] && field != "" && field in m.attributes
    ensures OrderByOutcome(m, Single(text)) == Accept(Quote(field))
  {
    SplitWsEmpty();
  }

  /** An attribute and a direction order by both, the direction kept as written. */
  lemma OrderByDirection(m: ModelInfo, text: string, field: string, dir: string)
    requires SplitWs(text) == [field, dir] && field in m.attributes && IsDirection(dir)
    ensures OrderByOutcome(m, Single(text)) == Accept(Quote(field) + " " + dir)
  {
    SplitWsEmpty();
  }

  /** Four tokens: attribute, direction, `nulls`, `first` or `last`, all kept as written. */
  lemma OrderByNulls(m: ModelInfo, text: string, field: string, dir: string, nulls: string, place: string)
    requires SplitWs(text) == [field, dir, nulls, place] && field in m.attributes
    requires IsDirection(dir) && LowerString(nulls) == "nulls" && IsNullsPlacement(place)
    ensures OrderByOutcome(m, Single(text)) == Accept(Quote(field) + " " + dir + " " + nulls + " " + place)
  {
    SplitWsEmpty();
    var parts := SplitWs(text);
    assert parts[0] == field && parts[1] == dir && parts[2] == nulls && parts[3] == place;
    assert OrderByOutcome(m, Single(text)) == OrderByTokens(m, text, parts);
  }

  /** A second token that is neither empty nor a direction is reported by name. */
  lemma OrderByBadDirection(m: ModelInfo, text: string, field: string, dir: string)
    requires SplitWs(text) == [field, dir] && field in m.attributes
    requires dir != "" && !IsDirection(dir)
    ensures OrderByOutcome(m, Single(text)) == Reject(NotSupported(dir))
  {
    SplitWsEmpty();
  }

  /** Exactly three tokens after a valid attribute are refused as a whole. */
  lemma OrderByThreeTokens(m: ModelInfo, text: string)
    requires |SplitWs(text)| == 3 && SplitWs(text)[0] in m.attributes
    ensures OrderByOutcome(m, Single(text)) == Reject("Invalid orderBy parameter: " + text)
  {
    SplitWsEmpty();
  }

  /** Five or more tokens get the verdict of the first two alone. */
  lemma OrderByTokensIgnoreBeyondFourth(m: ModelInfo, text: string, prefix: string, parts: seq<string>)
    requires |parts| >= 5
    ensures OrderByTokens(m, text, parts) == OrderByTokens(m, prefix, parts[..2])
  {
  }

  /** A value of five or more tokens gets the verdict of its first two tokens alone. */
  lemma OrderByIgnoresBeyondFourth(m: ModelInfo, text: string, prefix: string)
    requires |SplitWs(text)| >= 5 && SplitWs(prefix) == SplitWs(text)[..2]
    ensures OrderByOutcome(m, Single(text)) == OrderByOutcome(m, Single(prefix))
  {
    SplitWsEmpty();
    OrderByTokensIgnoreBeyondFourth(m, text, prefix, SplitWs(text));
  }

  /** A value spelled as tokens joined by single spaces has exactly those tokens. */
  lemma OrderByTokensOfJoin(m: ModelInfo, tokens: seq<string>)
    requires |tokens| >= 1
    requires forall k :: 0 <= k < |tokens| ==> IsToken(tokens[k])
    ensures OrderByOutcome(m, Single(JoinBy(tokens, " "))) == OrderByTokens(m, JoinBy(tokens, " "), tokens)
  {
    SplitTokens(tokens);
  }

  // ---------------------------------------------------------------------------
  // _setFilter

  /** `\\w`: a letter, a digit or `_`. */
  predicate IsWordChar(c: char) {
    'a' <= c <= 'z' || 'A' <= c <= 'Z' || '0' <= c <= '9' || c == '_'
  }

  /** A non-empty run of word characters. */
  predicate IsWord(s: string) {
    |s| >= 1 && forall i :: 0 <= i < |s| ==> IsWordChar(s[i])
  }

  /** One of the three filter operators `=`, `<`, `>`. */
  predicate IsOperator(c: char) {
    c == '=' || c == '<' || c == '>'
  }

  /** A character the filter pattern admits right after the operator: a word character, `(`, `,`, `)` or `'`. */
  predicate IsValueChar(c: char) {
    IsWordChar(c) || c == '(' || c == ',' || c == ')' || c == '\''
  }

  /** The condition `field = value` stores: an `in(...)` list of cleaned items, or the value with every `'` removed. */
  function EqualsCondition(value: string): Condition {
    match InList(value)
    case Some(inner) => OneOf(CleanItems(Split(inner, ',')))
    case None => Equals(Remove(value, '\''))
  }

  /**
   * The group captured by `^in\\s*\\((.*)\\)`: after `in`, white space and
   * `(`, the rest of the line up to its last `)`. The greedy `.*` stops at the
   * first line terminator and backs off to the last `)` before it.
   */
  function InList(value: string): Option<string> {
    if |value| < 2 || value[..2] != "in" then None
    else
      var rest := value[2..];
      var spaces := LeadingSpaces(rest);
      if spaces == |rest| || rest[spaces] != '(' then None
      else
        var after := rest[spaces + 1..];
        var line := after[..LineEnd(after)];
        var close := LastIndexOf(line, ')');
        if close < 0 then None else Some(line[..close])
  }

  /** An item of an `in(...)` list as stored: every `'` removed, then trimmed. */
  function CleanItem(v: string): string {
    Trim(Remove(v, '\''))
  }

  function CleanItems(items: seq<string>): (r: seq<string>)
    ensures |r| == |items|
  {
    if |items| == 0 then [] else CleanItems(items[..|items| - 1]) + [CleanItem(items[|items| - 1])]
  }

  /** What handling one filter piece does: report a message, do nothing, or store a condition under a field. */
  datatype Step = Report(message: string) | Skip | Put(field: string, condition: Condition)

  function ApplyStep(step: Step, where: map<string, Condition>): map<string, Condition> {
    if step.Put? then where[step.field := step.condition] else where
  }

  function StepMessages(step: Step): seq<string> {
    if step.Report? then [step.message] else []
  }

  /**
   * `_setFilter`: `=` stores the `in(...)` items or the unquoted value; `<`
   * and `>` store a bound when the value is a number and report it otherwise.
   */
  function SetFilterStep(op: char, field: string, value: string): Step
    requires IsOperator(op)
  {
    if op == '=' then Put(field, EqualsCondition(value))
    else
      match ParseNumber(value)
      case None => Report(NotValidNumber(value))
      case Some(n) => Put(field, if op == '<' then Below(n) else Above(n))
  }

  /** The `_.each` over the `in(...)` items: every item cleaned, in order. */
  method CleanList(inFields: seq<string>) returns (inValues: seq<string>)
    ensures inValues == CleanItems(inFields)
  {
    inValues := [];
    for i := 0 to |inFields|
      invariant inValues == CleanItems(inFields[..i])
    {
      assert inFields[..i + 1][..i] == inFields[..i];
      inValues := inValues + [CleanItem(inFields[i])];
    }
    assert inFields[..|inFields|] == inFields;
  }

  /** `_setFilter`, writing `filters.where[field]` or reporting on the request. */
  method SetFilter(req: Request, filters: Filters, op: char, field: string, value: string)
    requires IsOperator(op)
    modifies req`error, filters`where
    ensures req.error == WithValidationErrors(old(req.error), StepMessages(SetFilterStep(op, field, value)))
    ensures filters.where == ApplyStep(SetFilterStep(op, field, value), old(filters.where))
  {
    if op == '=' {
      var matched := InList(value);
      if matched.Some? {
        var inValues := CleanList(Split(matched.value, ','));
        assert SetFilterStep(op, field, value) == Put(field, OneOf(inValues));
        filters.where := filters.where[field := OneOf(inValues)];
      } else {
        assert SetFilterStep(op, field, value) == Put(field, Equals(Remove(value, '\'')));
        filters.where := filters.where[field := Equals(Remove(value, '\''))];
      }
    } else {
      var intValue := ParseNumber(value);
      if intValue.None? {
        assert SetFilterStep(op, field, value) == Report(NotValidNumber(value));
        AddValidationError(req, NotValidNumber(value));
        return;
      }
      if op == '<' {
        assert SetFilterStep(op, field, value) == Put(field, Below(intValue.value));
        filters.where := filters.where[field := Below(intValue.value)];
      } else {
        assert SetFilterStep(op, field, value) == Put(field, Above(intValue.value));
        filters.where := filters.where[field := Above(intValue.value)];
      }
    }
  }

  // ---------------------------------------------------------------------------
  // parseFilter

  /** Where the filter pattern `\\w+([=<>])[\\w\\(\\,)\\']+` can put its operator: a word character before, a value character after. */
  predicate OperatorAt(s: string, j: int) {
    0 < j && j + 1 < |s| && IsWordChar(s[j - 1]) && IsOperator(s[j]) && IsValueChar(s[j + 1])
  }

  /**
   * The position of the operator the filter pattern captures, searching from
   * `j`, or -1 when it does not match. The leftmost match starts at the
   * first word run whose greedy end is followed by an operator and a value
   * character, so its operator is the first position satisfying `OperatorAt`.
   */
  function FilterOperatorFrom(s: string, j: nat): (k: int)
    requires j <= |s|
    ensures k == -1 || (j <= k < |s| && OperatorAt(s, k))
    decreases |s| - j
  {
    if j == |s| then -1 else if OperatorAt(s, j) then j else FilterOperatorFrom(s, j + 1)
  }

  /** No position before the one found can hold the operator. */
  lemma {:induction false} FilterOperatorFromIsFirst(s: string, j: nat, i: int)
    requires j <= i < |s|
    requires FilterOperatorFrom(s, j) == -1 || i < FilterOperatorFrom(s, j)
    ensures !OperatorAt(s, i)
    decreases |s| - j
  {
    if i > j {
      FilterOperatorFromIsFirst(s, j + 1, i);
    }
  }

  /** A position holding the operator with none before it is the one found. */
  lemma {:induction false} FilterOperatorFromSkips(s: string, j: nat, k: int)
    requires j <= k && OperatorAt(s, k)
    requires forall i :: j <= i < k ==> !OperatorAt(s, i)
    ensures FilterOperatorFrom(s, j) == k
    decreases k - j
  {
    if j < k {
      FilterOperatorFromSkips(s, j + 1, k);
    }
  }

  /** With no position holding the operator, the pattern does not match. */
  lemma {:induction false} FilterOperatorFromNone(s: string, j: nat)
    requires j <= |s|
    requires forall i :: j <= i < |s| ==> !OperatorAt(s, i)
    ensures FilterOperatorFrom(s, j) == -1
    decreases |s| - j
  {
    if j < |s| {
      FilterOperatorFromNone(s, j + 1);
    }
  }

  /** The first position from `j` holding any of `=`, `<`, `>`, or -1: where `split(/[=<>]/)` cuts. */
  function FirstOperatorFrom(s: string, j: nat): (k: int)
    requires j <= |s|
    ensures k == -1 || (j <= k < |s| && IsOperator(s[k]))
    decreases |s| - j
  {
    if j == |s| then -1 else if IsOperator(s[j]) then j else FirstOperatorFrom(s, j + 1)
  }

  /** An operator at `k` is found at `k` or earlier. */
  lemma {:induction false} FirstOperatorFromFinds(s: string, j: nat, k: int)
    requires j <= k < |s| && IsOperator(s[k])
    ensures j <= FirstOperatorFrom(s, j) <= k
    decreases k - j
  {
    if j < k && !IsOperator(s[j]) {
      FirstOperatorFromFinds(s, j + 1, k);
    }
  }

  /** With no operator from `j` up to `k`, the search from `j` gives what the search from `k` gives. */
  lemma {:induction false} FirstOperatorFromSkips(s: string, j: nat, k: nat)
    requires j <= k <= |s|
    requires forall i :: j <= i < k ==> !IsOperator(s[i])
    ensures FirstOperatorFrom(s, j) == FirstOperatorFrom(s, k)
    decreases k - j
  {
    if j < k {
      FirstOperatorFromSkips(s, j + 1, k);
    }
  }

  /** `piece.split(/[=<>]/)[0]`: the text before the first operator. */
  function FieldText(piece: string): string {
    var i := FirstOperatorFrom(piece, 0);
    if i < 0 then piece else piece[..i]
  }

  /** `piece.split(/[=<>]/)[1]`: the text between the first operator and the next, absent without an operator. */
  function ValueText(piece: string): Option<string> {
    var i := FirstOperatorFrom(piece, 0);
    if i < 0 then None
    else
      var e := FirstOperatorFrom(piece, i + 1);
      Some(piece[i + 1..if e < 0 then |piece| else e])
  }

  /**
   * Handling one `&`-separated piece: a piece the pattern does not match is
   * reported; an empty value is skipped; a field that is not an attribute is
   * reported; otherwise `_setFilter` runs with the captured operator.
   */
  function PieceStep(m: ModelInfo, piece: string): Step {
    var k := FilterOperatorFrom(piece, 0);
    if k < 0 then Report(piece + " is not a valid filter")
    else
      FirstOperatorFromFinds(piece, 0, k);
      var field := Trim(FieldText(piece));
      var value := Trim(ValueText(piece).value);
      if value == "" then Skip
      else if field !in m.attributes then Report(NotValidField(field, m))
      else SetFilterStep(piece[k], field, value)
  }

  /** The callback `parseFilter` runs on each piece. */
  method ParsePiece(m: ModelInfo, req: Request, filters: Filters, piece: string)
    modifies req`error, filters`where
    ensures req.error == WithValidationErrors(old(req.error), StepMessages(PieceStep(m, piece)))
    ensures filters.where == ApplyStep(PieceStep(m, piece), old(filters.where))
  {
    var matched := FilterOperatorFrom(piece, 0);
    if matched < 0 {
      assert PieceStep(m, piece) == Report(piece + " is not a valid filter");
      AddValidationError(req, piece + " is not a valid filter");
      return;
    }
    FirstOperatorFromFinds(piece, 0, matched);
    var field := Trim(FieldText(piece));
    var value := Trim(ValueText(piece).value);
    if value == "" {
      assert PieceStep(m, piece) == Skip;
      return;
    }
    if field !in m.attributes {
      assert PieceStep(m, piece) == Report(NotValidField(field, m));
      AddValidationError(req, NotValidField(field, m));
      return;
    }
    assert PieceStep(m, piece) == SetFilterStep(piece[matched], field, value);
    SetFilter(req, filters, piece[matched], field, value);
  }

  /** `parseFilter`'s verdict on the parameter: empty or repeated is reported; otherwise its `&`-separated pieces. */
  function FilterPieces(filterParam: QueryValue): Outcome<seq<string>> {
    if !Truthy(filterParam) then Reject("Value of filter parameter is empty")
    else if filterParam.Multiple? then Reject("Multiple filters parameters are provided, only one filter is supported")
    else Accept(Split(filterParam.text, '&'))
  }

  /** The `where` conditions after handling `pieces` in order. */
  function ApplyPieces(m: ModelInfo, pieces: seq<string>, where: map<string, Condition>): map<string, Condition> {
    if |pieces| == 0 then where
    else ApplyStep(PieceStep(m, pieces[|pieces| - 1]), ApplyPieces(m, pieces[..|pieces| - 1], where))
  }

  /** The messages reported while handling `pieces`, in order. */
  function PieceMessages(m: ModelInfo, pieces: seq<string>): seq<string> {
    if |pieces| == 0 then []
    else PieceMessages(m, pieces[..|pieces| - 1]) + StepMessages(PieceStep(m, pieces[|pieces| - 1]))
  }

  /** Handling one more piece extends both folds by that piece's step. */
  lemma PiecesSnoc(m: ModelInfo, pieces: seq<string>, i: nat, where: map<string, Condition>)
    requires i < |pieces|
    ensures PieceMessages(m, pieces[..i + 1]) == PieceMessages(m, pieces[..i]) + StepMessages(PieceStep(m, pieces[i]))
    ensures ApplyPieces(m, pieces[..i + 1], where) == ApplyStep(PieceStep(m, pieces[i]), ApplyPieces(m, pieces[..i], where))
  {
    assert pieces[..i + 1][..i] == pieces[..i];
  }

  /**
   * `parseFilter`: report an empty or repeated parameter; otherwise handle
   * each `&`-separated piece in turn, each reporting at most one message.
   */
  method ParseFilter(m: ModelInfo, req: Request, filters: Filters, filterParam: QueryValue)
    modifies req`error, filters`where
    ensures match FilterPieces(filterParam)
            case Reject(msg) =>
              req.error == Some(WithValidationError(old(req.error), msg)) && filters.where == old(filters.where)
            case Accept(pieces) =>
              && req.error == WithValidationErrors(old(req.error), PieceMessages(m, pieces))
              && filters.where == ApplyPieces(m, pieces, old(filters.where))
  {
    if !Truthy(filterParam) {
      AddValidationError(req, "Value of filter parameter is empty");
      return;
    }
    if filterParam.Multiple? {
      AddValidationError(req, "Multiple filters parameters are provided, only one filter is supported");
      return;
    }
    // The source's final `else` ('Filter is empty') cannot be reached: the first test already returned.
    var filterValues := Split(filterParam.text, '&');
    assert FilterPieces(filterParam) == Accept(filterValues);
    for i := 0 to |filterValues|
      invariant req.error == WithValidationErrors(old(req.error), PieceMessages(m, filterValues[..i]))
      invariant filters.where == ApplyPieces(m, filterValues[..i], old(filters.where))
    {
      ParsePiece(m, req, filters, filterValues[i]);
      PiecesSnoc(m, filterValues, i, old(filters.where));
      WithValidationErrorsConcat(old(req.error), PieceMessages(m, filterValues[..i]), StepMessages(PieceStep(m, filterValues[i])));
    }
    assert filterValues[..|filterValues|] == filterValues;
  }

  // ---------------------------------------------------------------------------
  // Properties of the filter parser

  /**
   * A piece made of a word, an operator and a word is dispatched on that
   * operator: to `_setFilter` when the word before it is an attribute,
   * reported otherwise.
   */
  lemma PieceOfWords(m: ModelInfo, field: string, op: char, v: string)
    requires IsWord(field) && IsOperator(op) && IsWord(v)
    ensures PieceStep(m, field + [op] + v)
            == if field in m.attributes then SetFilterStep(op, field, v) else Report(NotValidField(field, m))
  {
    var p := field + [op] + v;
    var f := |field|;
    assert p[f] == op && p[f + 1] == v[0];
    forall i | 0 <= i < f
      ensures !OperatorAt(p, i) && !IsOperator(p[i])
    {
      assert p[i] == field[i];
    }
    FilterOperatorFromSkips(p, 0, f);
    FirstOperatorFromSkips(p, 0, f);
    forall i | f + 1 <= i < |p|
      ensures !IsOperator(p[i])
    {
      assert p[i] == v[i - f - 1];
    }
    FirstOperatorFromSkips(p, f + 1, |p|);
    assert p[..f] == field && p[f + 1..|p|] == v;
    WordTrimmed(field);
    WordTrimmed(v);
  }

  lemma WordTrimmed(w: string)
    requires IsWord(w)
    ensures Trim(w) == w
  {
    assert IsWordChar(w[0]) && IsWordChar(w[|w| - 1]);
    TrimOfTrimmed(w);
  }

  /** A plain word value is stored as it is. */
  lemma FilterEquals(m: ModelInfo, field: string, v: string)
    requires IsWord(field) && field in m.attributes && IsWord(v)
    ensures PieceStep(m, field + "=" + v) == Put(field, Equals(v))
  {
    PieceOfWords(m, field, '=', v);
    assert |v| > 2 ==> v[2] != '(';
    assert '\'' !in v by {
      forall i | 0 <= i < |v| ensures v[i] != '\'' {
        assert IsWordChar(v[i]);
      }
    }
  }

  /** A natural number after `<` or `>` is stored as the bound. */
  lemma FilterCompare(m: ModelInfo, field: string, op: char, n: nat)
    requires IsWord(field) && field in m.attributes && (op == '<' || op == '>')
    ensures PieceStep(m, field + [op] + Show(n)) == Put(field, if op == '<' then Below(n) else Above(n))
  {
    var digits := Show(n);
    assert forall i :: 0 <= i < |digits| ==> IsDigit(digits[i]);
    PieceOfWords(m, field, op, digits);
    ParseShow(n);
  }

  /** A word that is not a number after `<` or `>` is reported and nothing is stored. */
  lemma FilterNotANumber(m: ModelInfo, field: string, op: char, v: string)
    requires IsWord(field) && field in m.attributes && (op == '<' || op == '>')
    requires IsWord(v) && ParseNumber(v).None?
    ensures PieceStep(m, field + [op] + v) == Report(NotValidNumber(v))
  {
    PieceOfWords(m, field, op, v);
  }

  /** A word that is not an attribute is reported, whatever the operator and value. */
  lemma FilterUnknownField(m: ModelInfo, field: string, op: char, v: string)
    requires IsWord(field) && field !in m.attributes && IsOperator(op) && IsWord(v)
    ensures PieceStep(m, field + [op] + v) == Report(NotValidField(field, m))
  {
    PieceOfWords(m, field, op, v);
  }

  /**
   * A negative bound does not fit the pattern, whose value characters have
   * no `-`: the whole piece is reported as not a filter.
   */
  lemma FilterNegativeIsNoFilter(m: ModelInfo, field: string, op: char, n: nat)
    requires IsWord(field) && IsOperator(op)
    ensures PieceStep(m, field + [op] + "-" + ShowNat(n)) == Report(field + [op] + "-" + ShowNat(n) + " is not a valid filter")
  {
    var digits := ShowNat(n);
    var p := field + [op] + "-" + digits;
    var f := |field|;
    forall i | 0 <= i < |p|
      ensures !OperatorAt(p, i)
    {
      if i < f {
        assert p[i] == field[i];
      } else if i > f + 1 {
        assert p[i] == digits[i - f - 2];
        assert IsDigit(digits[i - f - 2]);
      }
    }
    FilterOperatorFromNone(p, 0);
  }

  /** A piece is skipped silently exactly when the pattern matches and its value is empty after trimming. */
  lemma PieceSkips(m: ModelInfo, piece: string)
    ensures PieceStep(m, piece).Skip?
            <==> FilterOperatorFrom(piece, 0) >= 0 && ValueText(piece).Some? && Trim(ValueText(piece).value) == ""
  {
    var k := FilterOperatorFrom(piece, 0);
    if k >= 0 {
      FirstOperatorFromFinds(piece, 0, k);
    }
  }

  /** Only attributes are ever stored. */
  lemma PiecePutsAttribute(m: ModelInfo, piece: string)
    ensures PieceStep(m, piece).Put? ==> PieceStep(m, piece).field in m.attributes
  {
    var k := FilterOperatorFrom(piece, 0);
    if k >= 0 {
      FirstOperatorFromFinds(piece, 0, k);
    }
  }

  /** Every piece reports at most one message. */
  lemma {:induction false} PieceMessagesAtMostOne(m: ModelInfo, pieces: seq<string>)
    ensures |PieceMessages(m, pieces)| <= |pieces|
  {
    if |pieces| > 0 {
      PieceMessagesAtMostOne(m, pieces[..|pieces| - 1]);
    }
  }

  /** A key that is not an attribute keeps its condition, or its absence, whatever the pieces. */
  lemma {:induction false} ApplyPiecesKeepsOthers(m: ModelInfo, pieces: seq<string>, where: map<string, Condition>, key: string)
    requires key !in m.attributes
    ensures key in ApplyPieces(m, pieces, where) <==> key in where
    ensures key in where ==> ApplyPieces(m, pieces, where)[key] == where[key]
  {
    if |pieces| > 0 {
      ApplyPiecesKeepsOthers(m, pieces[..|pieces| - 1], where, key);
      PiecePutsAttribute(m, pieces[|pieces| - 1]);
    }
  }

  /** Item `k` of the cleaned list is item `k` cleaned. */
  lemma {:induction false} CleanItemsAt(items: seq<string>, k: nat)
    requires k < |items|
    ensures CleanItems(items)[k] == CleanItem(items[k])
  {
    if k < |items| - 1 {
      CleanItemsAt(items[..|items| - 1], k);
    }
  }

  /** A cleaned item has no `'` and no surrounding white space. */
  lemma CleanItemIsClean(v: string)
    ensures '\'' !in CleanItem(v)
    ensures Trim(CleanItem(v)) == CleanItem(v)
  {
    TrimKeepsAbsent(Remove(v, '\''), '\'');
    TrimOfTrimmed(CleanItem(v));
  }

  /** Whatever `=` stores has no `'`; the items of an `in(...)` list are also trimmed. */
  lemma EqualsConditionUnquoted(value: string)
    ensures EqualsCondition(value).Equals? ==> '\'' !in EqualsCondition(value).value
    ensures EqualsCondition(value).OneOf? ==>
              forall k :: 0 <= k < |EqualsCondition(value).values| ==>
                '\'' !in EqualsCondition(value).values[k] && Trim(EqualsCondition(value).values[k]) == EqualsCondition(value).values[k]
  {
    match InList(value)
    case Some(inner) =>
      var items := Split(inner, ',');
      forall k | 0 <= k < |items|
        ensures '\'' !in CleanItems(items)[k] && Trim(CleanItems(items)[k]) == CleanItems(items)[k]
      {
        CleanItemsAt(items, k);
        CleanItemIsClean(items[k]);
      }
    case None =>
  }

  /**
   * `in(` followed by comma-separated items on one line and `)` stores the
   * items, each cleaned, in order.
   */
  lemma InListOfItems(items: seq<string>)
    requires |items| >= 1
    requires forall k :: 0 <= k < |items| ==> ',' !in items[k] && NoLineTerminator(items[k])
    ensures EqualsCondition("in(" + Join(items, ',') + ")") == OneOf(CleanItems(items))
  {
    JoinNoLineTerminator(items, ',');
    InListOfLine(Join(items, ','));
    SplitJoin(items, ',');
  }

  /** `in(` followed by one line of text and `)` captures that text. */
  lemma InListOfLine(body: string)
    requires NoLineTerminator(body)
    ensures InList("in(" + body + ")") == Some(body)
  {
    var after := body + ")";
    var rest := "(" + after;
    var value := "in" + rest;
    assert value == "in(" + body + ")";
    assert value[..2] == "in" && value[2..] == rest && rest[1..] == after;
    assert NoLineTerminator(after) by {
      forall i | 0 <= i < |after| ensures !IsLineTerminator(after[i]) {
        if i < |body| {
          assert after[i] == body[i];
        }
      }
    }
    LineEndOfOneLine(after);
    assert after[..LineEnd(after)] == after;
    assert after[..|body|] == body;
    assert LeadingSpaces(rest) == 0;
    assert LastIndexOf(after, ')') == |body|;
  }

  /** Items already free of `'` and surrounding white space are stored unchanged. */
  lemma {:induction false} CleanItemsOfClean(items: seq<string>)
    requires forall k :: 0 <= k < |items| ==> '\'' !in items[k] && Trim(items[k]) == items[k]
    ensures CleanItems(items) == items
  {
    if |items| > 0 {
      var front := items[..|items| - 1];
      CleanItemsOfClean(front);
      assert items == front + [items[|items| - 1]];
    }
  }

  /** A parameter written as pieces joined by `&` is handled piece by piece. */
  lemma FilterOfPieces(pieces: seq<string>)
    requires |pieces| >= 1 && forall k :: 0 <= k < |pieces| ==> '&' !in pieces[k]
    requires Join(pieces, '&') != ""
    ensures FilterPieces(Single(Join(pieces, '&'))) == Accept(pieces)
  {
    SplitJoin(pieces, '&');
  }
}

# lc1-discussion-service: query-parameter helpers, modelled in Dafny

This project models the request-parameter core of the discussion service, a
REST API over Discussions and their Messages:

- **lib/expandHelper.js** covers the `expand` query parameter. Each clause
  such as `messages.discussion` is trimmed and split on `.` (`_trimParam`).
  Its segments are checked against the schema and rewritten into model
  names, the term `all` or foreign keys (`_validateTermsInParam`, using
  `_isModel`, `_isTerm`, `_hasKey`, `_hasMany`, `_isForeignKey`).
  - `assembleExpandParam` infers a depth from the rewritten clause.
  - `_confirmDepth` reports clauses that give one root model two depths.
  - `parseExpandParam` attaches the plan to the request.
  - `expandObject` first checks the first rule of every clause.
- **lib/paramHelper.js** fills a query's `filters` object from the `limit`,
  `offset`, `orderBy` and `filter` parameters (`parseLimitOffset`,
  `parseOrderBy`, `parseFilter`, `_setFilter`). Problems are reported as
  validation errors.
- **lib/routeHelper.js** records errors on the request (`addError`,
  `addErrorMessage`, `addValidationError`, `errorHandler`), derives a
  foreign-key name (`getRefIdField`) and chooses the JSON response
  (`renderJson`).

Modules:

- `Wrappers`: Option.
- `Strings`: the JavaScript string operations the helpers use. These are
  `trim`, `split` on a character, `split(/\s+/)`, `indexOf`, `lastIndexOf`,
  ASCII `toLowerCase`, `replace(/'/g, '')` and `Number` on decimal integers.
- `Schema`: the model registry that stands in for the data source. It is
  taken from api/models/message.js and api/models/discussion.js.
- `Requests`: the request object as a class whose fields the helpers update.
- `RouteHelper`, `ExpandHelper`, `ParamHelper`: one module per source file.

The request and the `filters` object are classes, because the source updates
them in place. Each mutating helper is a method with a `modifies` clause. Each
is proved against a specification function of the old state, such as
`LimitOffsetOutcome`, `OrderByOutcome`, `PieceStep`, `Validated` or
`PlannedQuery`. The source's promises are lemmas about those functions.

## Model

| member | source | states |
|---|---|---|
| Schema.Find | lib/expandHelper.js:118 | Looks a model up by name: found exactly for `Discussion` and `Message`, and the model found has that name. |
| Schema.LastWithPluralSpec | lib/expandHelper.js:66-74 | The registry scan finds a name exactly when some model's plural alias equals the segment. The name is that of the last such model. |
| Schema.IsModel | lib/expandHelper.js:66-74 | `_isModel` answers exactly for `discussions` and `messages`. The name returned is a registered model whose plural alias is the segment. |
| Schema.IsTerm | lib/expandHelper.js:83-92 | `_isTerm` answers exactly for `all` and returns the segment itself. |
| Schema.IsForeignKey | lib/expandHelper.js:137-144 | `_isForeignKey` returns `sub + "Id"` exactly when the named model exists and has that attribute. Otherwise it returns nothing. |
| Schema.ReservedAreNotModels | lib/expandHelper.js:163-209 | `all`, the empty string and any `…Id` foreign-key token are never model names, so a rewritten segment's kind is unambiguous. |
| ExpandHelper.SplitClauseRoundTrip | lib/expandHelper.js:42-50 | Joining the segments with `.` gives back the trimmed clause, up to the one trailing `.` the do/while loop drops. |
| ExpandHelper.SplitClauseDropsTrailingEmpty | lib/expandHelper.js:42-50 | The loop's segments are `split('.')` without the empty piece a trailing `.` leaves. |
| ExpandHelper.SplitClauseHasNoDot | lib/expandHelper.js:44-47 | No segment contains a `.`. |
| ExpandHelper.TrimParam | lib/expandHelper.js:35-52 | Returns the segments of the trimmed clause. It adds the "cannot end up with '.'" error exactly when the trimmed clause ends in `.`, and changes nothing else. |
| ExpandHelper.ValidatedKeepsPrefix | lib/expandHelper.js:158-226 | Validation never rewrites a segment before the one it is looking at. |
| ExpandHelper.ValidatedTokens | lib/expandHelper.js:163-221 | Up to the first failure, every rewritten segment is a model name, `all` or a `…Id` key. |
| ExpandHelper.ValidateTermsInParam | lib/expandHelper.js:158-226 | Rewrites the segments as `Validated` does. It stops at the first bad segment, reports exactly that segment's error, and leaves the rest of the array as it was. |
| ExpandHelper.AcceptsFromAll | lib/expandHelper.js:160-223 | Segment-by-segment acceptance from index i is the same as each segment from i being accepted. |
| ExpandHelper.ValidatedIffValidClause | lib/expandHelper.js:158-226 | Validation reports no error iff the clause follows the grammar. The grammar: first a known model; then models the previous one has many of; at position 1 only, `all` or a foreign key of the root. A valid clause's output is each segment resolved. |
| ExpandHelper.ValidClauseShape | lib/expandHelper.js:163-221 | A validated clause starts with a model name. Each later model is a HasMany child of the one before it. A non-model rewrite sits at index 1 of a two-segment clause and is `all` or the root's foreign key. |
| ExpandHelper.NothingFollowsNonModel | lib/expandHelper.js:187-207 | When segment 1 is not a model, no third segment is accepted. |
| ExpandHelper.FirstDiff | lib/expandHelper.js:263-274 | The scan stops at the first rule that differs from the first one; every rule before it is equal to the first. |
| ExpandHelper.AssembleExpandParam | lib/expandHelper.js:258-284 | An empty clause gives depth 1. n copies of one model give depth n. A model repeated and then `all` gives 999999999. Otherwise the first rule is dropped and the depth is -1. At most one rule is removed. |
| ExpandHelper.DepthOfValidClause | lib/expandHelper.js:258-284 | For validated clauses: `[M,…,M]` gives depth n with all rules; `[M, all]` gives 999999999; `[M, key]` gives `[key]` with -1. |
| ExpandHelper.AssembledPair | lib/expandHelper.js:264-282 | Two different rules, the second not `all`, leave only the second with depth -1. |
| ExpandHelper.ConfirmDepthsSpec | lib/expandHelper.js:291-317 | The recorded depth of each root is the first positive depth given for it. A conflict error is reported exactly for each later clause with a different positive depth. |
| ExpandHelper.EqualDepthsDoNotConflict | lib/expandHelper.js:302-308 | A clause that repeats the depth already recorded for its root is not reported. |
| ExpandHelper.FirstPositiveDepthIsSome | lib/expandHelper.js:294-303 | A root has a recorded depth exactly when some clause for it has a positive depth. |
| ExpandHelper.ConfirmDepth | lib/expandHelper.js:291-317 | Returns the depth map and each clause reduced to its rules, and appends the conflict errors to the request. |
| ExpandHelper.ConfirmDepthsAsWrittenAgrees | lib/expandHelper.js:292-310 | While no root is named like a property every object inherits, the plain `{}` of the source behaves as the dictionary: its own entries are the recorded depths, the errors are the same, and nothing shared is written. |
| ExpandHelper.ProtoRootsAsWrittenConflict | lib/expandHelper.js:292-310 | On roots `__proto__` (depth 1) and `toString` (depth 2) the object as written reports a conflict for `toString` and sets `depth` on `Object.prototype`; the dictionary records both roots and reports nothing. |
| ExpandHelper.ProtoRootsRequest | lib/expandHelper.js:291-345 | `expand[]=__proto__&expand[]=toString.toString` as written: one spurious depth conflict and `Object.prototype.depth` left at 1; with the dictionary, no conflict. |
| ExpandHelper.PrototypeDepthOutlivesRequest | lib/expandHelper.js:292-310 | With `Object.prototype.depth` left at 1 by an earlier request, a later lone `__proto__` or `depth` clause of depth 2 is reported as a conflict; with the dictionary it is not. |
| ExpandHelper.PlanUnknownRoot | lib/expandHelper.js:163-167 | A one-segment clause that is no plural alias gets the unknown-Model error and keeps its segment, with depth 1. |
| ExpandHelper.PlanRepeatedUnknownRoot | lib/expandHelper.js:163-167 | `a.a` with `a` no plural alias gets the unknown-Model error and keeps both segments, with depth 2. |
| ExpandHelper.RulesOf | lib/expandHelper.js:313-315 | Each clause object is replaced by its rules, with the order and count kept. |
| ExpandHelper.PlanOne | lib/expandHelper.js:338 | Trim, validate and assemble one clause. The request gains exactly that clause's errors in order. |
| ExpandHelper.PlanExpand | lib/expandHelper.js:337-345 | The plan is every clause's rules with the confirmed depths. The request gains the clauses' errors and then the depth conflicts. |
| ExpandHelper.ParseExpandParam | lib/expandHelper.js:326-349 | `expand` is always removed from the query. Without it nothing else changes. On a non-GET request only the "not allowed" error is added. On GET the request gains the plan and its errors, with a plain-string value read as one clause (see Findings). |
| ExpandHelper.PlanMessages | lib/expandHelper.js:338 | `messages` plans to rules `[Message]` with depth 1 and no error. |
| ExpandHelper.PlanMessagesDiscussion | lib/expandHelper.js:338 | Example of `PlanMessagesForeignKey` from the request scenario: `messages.discussion` plans to `[discussionId]` with depth -1 and no error. |
| ExpandHelper.PlanMessagesParent | lib/expandHelper.js:338 | Example of `PlanMessagesForeignKey` from the request scenario: `messages.parentMessage` plans to `[parentMessageId]` with depth -1 and no error. |
| ExpandHelper.PlanMessagesForeignKey | lib/expandHelper.js:338 | `messages.<f>`, where `fId` is a Message attribute and `f` is no alias or term, plans to `[fId]` with depth -1. |
| ExpandHelper.ScenarioDepths | lib/expandHelper.js:291-317 | `messages`, `messages.discussion` and `messages.parentMessage` together record depth 1 for Message with no conflict. |
| ExpandHelper.ShortClauseFails | lib/expandHelper.js:163-167 | A clause of at most one character always gets at least one error. |
| ExpandHelper.PlanClausesErrorsAtLeast | lib/expandHelper.js:337-339 | When every clause reports an error, there are at least as many errors as clauses. |
| ExpandHelper.StringExpandAsWrittenFails | lib/expandHelper.js:337 | As written, a plain-string `expand` value of n characters yields at least n errors. |
| ExpandHelper.StringExpandIsOneClause | lib/expandHelper.js:326-349 | Read as one clause, `expand=messages` plans to `[[Message]]` with depth 1 for Message and no error. |
| ExpandHelper.LastDisallowedSpec | lib/expandHelper.js:444-449 | Nothing is found exactly when every clause's first rule is a HasMany association or attribute of the model. Otherwise the first rule of the last disallowed clause is found. |
| ExpandHelper.ExpandObject | lib/expandHelper.js:438-456 | Without content, without a plan, or with an existing error, it does nothing and does not traverse. Otherwise it traverses iff every first rule is allowed. If not, it records the "not allowed in the first position" error for the last offending rule. |
| RouteHelper.ErrorCode | lib/routeHelper.js:26 | `errCode \|\| req.error.code \|\| 500` on a fresh error: the given code when it is non-zero, else 500. |
| RouteHelper.WithValidationError | lib/routeHelper.js:46-55 | Adding a validation error sets code 400, appends the message to the list (created if absent) and keeps the existing message. |
| RouteHelper.WithValidationErrors | lib/routeHelper.js:46-55 | Several additions append all the messages in order. Adding none changes nothing. |
| RouteHelper.WithValidationErrorsConcat | lib/routeHelper.js:46-55 | Adding `a` and then `b` is the same as adding `a + b`. |
| RouteHelper.FromThrown | lib/routeHelper.js:12-27 | The error recorded for each shape of thrown value: the first array item's message, the message, the `errors` list, the string itself, or "request failed". It always carries the code rule. |
| RouteHelper.AddValidationError | lib/routeHelper.js:46-55 | The request's error becomes the old one with the message added. |
| RouteHelper.AddError | lib/routeHelper.js:12-27 | The request's error is replaced by the one derived from the thrown value, and any earlier error is discarded. |
| RouteHelper.AddErrorMessage | lib/routeHelper.js:117-121 | The request's error becomes exactly the message with the code rule and no validation list. |
| RouteHelper.ErrorHandler | lib/routeHelper.js:130-135 | A truthy error is recorded with code 400; otherwise the request is unchanged. |
| RouteHelper.GetRefIdField | lib/routeHelper.js:69-72 | The name with its first character lower-cased, followed by `Id`; the rest of the name is kept. |
| RouteHelper.RefIdFieldIsExpandForeignKey | lib/routeHelper.js:69-72 | `getRefIdField` of Discussion is the foreign key the expand validation accepts for `messages.discussion`. |
| RouteHelper.RenderJson | lib/routeHelper.js:79-109 | An error gives its status with `success: false`, with the validation messages joined by `. ` or else the message. Otherwise data gives 200 with the data, and no data gives 404 "Resource is not found". |
| RouteHelper.RenderValidationErrors | lib/routeHelper.js:79-97 | After validation errors are added, the response is 400 and its content joins all accumulated messages. |
| RouteHelper.RenderAfterAddError | lib/routeHelper.js:79-97 | After `addError` (unless it stored an `errors` list), the response status follows the code rule and its content is the recorded message; earlier validation messages do not appear. |
| ParamHelper.LimitOffsetOutcome | lib/paramHelper.js:58-75 | A value is accepted exactly when it is one non-empty string that is a number, and the accepted value is that number. |
| ParamHelper.LimitOffsetOfShow | lib/paramHelper.js:67-74 | Any integer written in decimal is accepted as itself. |
| ParamHelper.ParseLimitOffset | lib/paramHelper.js:58-75 | On rejection, the request gains the one message and both `offset` and `limit` are unchanged. On acceptance, only the slot named by the key is set, and no error is added. |
| ParamHelper.ParseOrderBy | lib/paramHelper.js:84-125 | On rejection, the request gains the one message and `order` is unchanged. Otherwise `order` is set to the accepted text and no error is added. |
| ParamHelper.ParseOrderTokens | lib/paramHelper.js:93-124 | The token checks in source order, each an early return that leaves `order` untouched. |
| ParamHelper.OrderByField | lib/paramHelper.js:94-98 | A lone attribute orders by the quoted attribute. |
| ParamHelper.OrderByDirection | lib/paramHelper.js:104-110 | An attribute and a direction order by `"field" dir`, with the direction as written. |
| ParamHelper.OrderByNulls | lib/paramHelper.js:112-122 | Four tokens `field dir nulls first/last` give `"field" dir nulls place`. |
| ParamHelper.OrderByBadDirection | lib/paramHelper.js:104-108 | A second token other than asc/desc is rejected as not supported. |
| ParamHelper.OrderByThreeTokens | lib/paramHelper.js:99-102 | Three tokens on a valid field are always rejected as an invalid orderBy parameter. |
| ParamHelper.OrderByIgnoresBeyondFourth | lib/paramHelper.js:99-124 | Five or more tokens are judged as their first two alone: later tokens are never checked or used. |
| ParamHelper.OrderByTokensOfJoin | lib/paramHelper.js:93 | A value made of space-joined tokens is judged on exactly those tokens. |
| ParamHelper.CleanList | lib/paramHelper.js:21-27 | Each item of the in-list has its `'` removed and is trimmed, in order. |
| ParamHelper.CleanItemsAt | lib/paramHelper.js:23-26 | Item k of the cleaned list is item k cleaned. |
| ParamHelper.CleanItemIsClean | lib/paramHelper.js:25 | A cleaned item has no `'` and is already trimmed. |
| ParamHelper.CleanItemsOfClean | lib/paramHelper.js:23-26 | Cleaning a list whose items are already clean changes nothing. |
| ParamHelper.EqualsConditionUnquoted | lib/paramHelper.js:18-31 | An `=` condition never keeps a `'`, as a single value or in any list item; list items are trimmed. |
| ParamHelper.InListOfItems | lib/paramHelper.js:19-27 | `in(a,b,…)` becomes the in-list of the cleaned items, one per comma-separated item. |
| ParamHelper.InListOfLine | lib/paramHelper.js:19 | The `in\s*\((.*)\)` match of `in(body)` captures `body`. |
| ParamHelper.SetFilter | lib/paramHelper.js:16-49 | `where` gets the field's `=`, in-list, lt or gt condition. A non-numeric bound for `<`/`>` only adds "is not a valid number" and leaves `where` unchanged. |
| ParamHelper.FilterOperatorFromSkips | lib/paramHelper.js:147 | The match finds the first operator that has a word character before it and a value character after it. |
| ParamHelper.FilterOperatorFromNone | lib/paramHelper.js:147-149 | When no operator has such neighbours, there is no match. |
| ParamHelper.FirstOperatorFromFinds | lib/paramHelper.js:151 | The split on `[=<>]` cuts at the first operator character. |
| ParamHelper.ParsePiece | lib/paramHelper.js:146-166 | One `&`-piece adds at most its one message and sets at most its one field, as `PieceStep` decides. |
| ParamHelper.ParseFilter | lib/paramHelper.js:134-170 | An empty or repeated parameter adds its one message and leaves `where` unchanged. Otherwise the pieces are handled in order: their messages are appended and their conditions applied. |
| ParamHelper.PieceOfWords | lib/paramHelper.js:147-161 | For `field op value` made of word characters: no skip or "not a valid filter". An unknown field is reported; a known one goes to `_setFilter` with that operator, field and value. |
| ParamHelper.FilterEquals | lib/paramHelper.js:18-29 | `field=value` on an attribute sets an equality on the value. |
| ParamHelper.FilterCompare | lib/paramHelper.js:32-47 | `field<n` and `field>n` on an attribute set `lt: n` and `gt: n`. |
| ParamHelper.FilterNotANumber | lib/paramHelper.js:33-36 | A non-numeric bound is reported as "… is not a valid number". |
| ParamHelper.FilterUnknownField | lib/paramHelper.js:157-161 | A field that is not an attribute is reported as "… is not a valid field in the <model>". |
| ParamHelper.FilterNegativeIsNoFilter | lib/paramHelper.js:147 | `field<-5` does not match the filter pattern and is reported as "… is not a valid filter". |
| ParamHelper.PieceSkips | lib/paramHelper.js:149-162 | A piece is silently skipped iff it matches the pattern and its trimmed value is empty. |
| ParamHelper.PiecePutsAttribute | lib/paramHelper.js:157-158 | A condition is only ever set on one of the model's attributes. |
| ParamHelper.PieceMessagesAtMostOne | lib/paramHelper.js:146-166 | A filter parameter yields at most one message per piece. |
| ParamHelper.ApplyPiecesKeepsOthers | lib/paramHelper.js:146-166 | Parsing filters never adds, removes or changes a `where` key that is not an attribute. |
| ParamHelper.FilterOfPieces | lib/paramHelper.js:145 | A non-empty filter made by joining `&`-free pieces with `&` is split back into exactly those pieces. |
| Strings.TrimOfTrimmed | lib/expandHelper.js:37 | `trim` is idempotent. |
| Strings.IndexOfIsFirst | lib/expandHelper.js:44 | `indexOf` is -1 exactly when the character is absent, and otherwise no earlier position holds it. |
| Strings.SplitHasNoSeparator | lib/paramHelper.js:145 | No piece of `split(c)` contains `c`. |
| Strings.JoinSplit | lib/paramHelper.js:145 | Joining the pieces of `split(c)` with `c` gives back the string. |
| Strings.SplitJoin | lib/paramHelper.js:145 | Splitting a join of `c`-free pieces gives the pieces back. |
| Strings.SplitWsJoin | lib/paramHelper.js:93 | `split(/\s+/)` of non-empty, space-free tokens joined by single spaces gives those tokens back. |
| Strings.LastIndexOfIsLast | lib/paramHelper.js:19 | The greedy `(.*)\)` ends at the last `)` found, with none after it. |
| Strings.LineEndOfOneLine | lib/paramHelper.js:19 | `.` runs to the end of a string without line terminators. |
| Strings.ParseShow | lib/paramHelper.js:67 | `Number` of an integer written in decimal is that integer. |

## Left out

- `recursionExpand` (lib/expandHelper.js:361-430) is left out. It walks the fetched records and issues asynchronous database queries per rule; the database and callbacks are I/O. `ExpandObject` models only the check before it and returns whether traversal would start.
- The data source and `pluralize` are replaced by a static registry (`Schema`), read from the two model definitions. The association keys are as declared: Discussion has many `messages`; Message belongs to `Discussion` and has many `Message`.
- Attributes Sequelize adds implicitly, such as timestamps, are not in the registry. Only the declared columns and keys are.
- ParamHelper.LimitOffsetOutcome: `Number()` is modelled on optionally signed decimal integers after trimming, with `""` as 0. Fractions, exponents, hex, `Infinity` and floating point are not modelled: such a value is treated as not a number.
- ParamHelper.SetFilter: the `<`/`>` bound uses the same decimal-integer `Number()`; a non-integer bound is reported as not a number.
- ParamHelper.OrderByTokens: `toLowerCase` is modelled for ASCII letters only.
- RouteHelper.GetRefIdField: `charAt(0).toLowerCase()` is modelled for ASCII letters only; every model name in the registry is ASCII.
- ParamHelper.PieceStep: the filter pattern `\w+([=<>])[\w\(\,)\']+`, the split on `[=<>]` and the `^in\s*\((.*)\)` match are stated as predicates and functions on the string, not as a general regular-expression engine.
- The second `value.trim()` in `parseFilter` (lib/paramHelper.js:155) is not modelled as a step of its own, because `TrimOfTrimmed` shows it changes nothing.
- The `'Filter is empty'` branch (lib/paramHelper.js:167-169) is not modelled. The earlier `!filterParam` return makes it unreachable.
- The parsers take a `ModelInfo` (the model's `name` and attribute set) instead of the ORM model object; nothing else of the model is read.
- Errors pushed by `addValidationError` are `Error` objects; the model keeps their messages, the only part `renderJson` reads.
- `res.status(...).json(...)`, `next()` and the Express wiring are I/O: `RenderJson` returns the status and body instead of sending them.
- lib/controllerHelper.js, the controllers, the events and the authentication helpers are not part of this model.
- `getSigninUser` and `requireAuth` (lib/routeHelper.js) call into the authentication library and are not part of this model.
- ExpandHelper.ConfirmDepth: keeps the depths in a map of own keys. The source's plain `{}` also answers inherited keys (`__proto__`, `toString`, `constructor`, …) from `Object.prototype` and writes `depth` there; `ConfirmDepthsAsWritten` models that object, for the standard properties of `Object.prototype`, and the Findings table records the difference. An empty rule list is keyed `undefined`, as JavaScript converts it; no clause reaches this case.
- ExpandHelper.ParseExpandParam: a plain-string `expand` value is read as one clause, the corrected reading. The per-character iteration the source performs is carried by `ClausesAsWritten` and `StringExpandAsWrittenFails` (see Findings).
- RouteHelper.FromThrown, RouteHelper.AddError, RouteHelper.ErrorHandler: an empty thrown array is excluded by the `requires`. On it the source sets `req.error` to `{}` and then throws a TypeError at lib/routeHelper.js:16 (`err[0].message`); the model does not promise that state or the throw.

## Findings

| source | as written | input that shows it | evidently intended | confidence | as-written member | corrected member |
|---|---|---|---|---|---|---|
| lib/expandHelper.js:337 | `_.forEach(params, …)` also runs when `expand` is a plain string, and then iterates its characters, each as a clause | `GET …?expand=messages`: eight one-character clauses, each "must start with a known Model", and no expansion | a single `expand` value is one clause, as `expand[]=messages` is | not executed | ExpandHelper.StringExpandAsWrittenFails | ExpandHelper.StringExpandIsOneClause |
| lib/expandHelper.js:292-306 | `depth` is a plain `{}`, so `depth[root]` for a root named like an inherited property finds `Object.prototype` or one of its methods, and `model.depth = …` writes onto that shared object | `GET …?expand[]=__proto__&expand[]=toString.toString`: "Multi expand depth in the same Model (toString)" for two different roots, and `Object.prototype.depth` stays 1 for every later request | a dictionary of own keys only, with no state shared between requests | not executed | ExpandHelper.ProtoRootsRequest | ExpandHelper.ConfirmDepthsSpec |

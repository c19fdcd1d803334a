/**
 * lib/expandHelper.js: the expand-parameter pipeline. Each clause is trimmed
 * and split on '.', its segments are checked against the schema registry and
 * rewritten (`_validateTermsInParam`), a depth policy is inferred from the
 * chain's shape (`assembleExpandParam`), clauses that give different depths
 * for one root model are reported (`_confirmDepth`), and the result becomes
 * `req.expandQuery` (`parseExpandParam`). `expandObject` checks the first
 * rule of every clause before the traversal, which is not modelled.
 */
module ExpandHelper {
  import opened Wrappers
  import opened Strings
  import opened Schema
  import opened Requests
  import opened RouteHelper

  /** The depth `assembleExpandParam` gives a clause ending in `all`. */
  const UnboundedDepth := 999999999

  /** The validation errors the expand pipeline reports; `Text` renders each as its message. */
  datatype ExpandError =
    | TrailingDot
    | UnknownRoot
    | NotHasMany(parent: string, child: string)
    | TermNotSecond
    | NoForeignKey(field: string, model: string)
    | ForeignKeyNotSecond(field: string)
    | DepthConflict(root: string)

  function Text(e: ExpandError): string {
    match e
    case TrailingDot => "Expand parameter cannot end up with '.'"
    case UnknownRoot => "Expand parameter must start with a known Model."
    case NotHasMany(parent, child) =>
      parent + " in the expand parameter is not a Model or it does not has many " + child
    case TermNotSecond => "Cannot have more than one Model before a term in the expand parameter"
    case NoForeignKey(field, model) =>
      "Cannot find foreignKey " + field + " in " + model + " in the expand parameter."
    case ForeignKeyNotSecond(field) =>
      "The foreignKey " + field + " must in the second position in the expand parameter."
    case DepthConflict(root) =>
      "Multi expand depth in the same Model (" + root + ") is not accepted in expand parameters."
  }

  /** The messages of `es`, in order. */
  function Texts(es: seq<ExpandError>): (r: seq<string>)
    ensures |r| == |es|
    ensures forall i :: 0 <= i < |es| ==> r[i] == Text(es[i])
  {
    seq(|es|, i requires 0 <= i < |es| => Text(es[i]))
  }

  lemma TextsConcat(a: seq<ExpandError>, b: seq<ExpandError>)
    ensures Texts(a + b) == Texts(a) + Texts(b)
  {
    var l := Texts(a + b);
    var r := Texts(a) + Texts(b);
    forall i | 0 <= i < |l| ensures l[i] == r[i] {
      if i < |a| {
        assert (a + b)[i] == a[i];
      } else {
        assert (a + b)[i] == b[i - |a|];
      }
    }
  }

  predicate EndsWithDot(s: string) {
    |s| > 0 && s[|s| - 1] == '.'
  }

  // ---------------------------------------------------------------------------
  // _trimParam

  /**
   * The segments `_trimParam`'s do-while loop cuts from an already trimmed
   * clause: the text up to each '.', where a final '.' yields no empty segment.
   */
  function SplitClause(r: string): (segs: seq<string>)
    ensures |segs| >= 1
    decreases |r|
  {
    var e := IndexOf(r, '.');
    if e < 0 then [r]
    else if e + 1 < |r| then [r[..e]] + SplitClause(r[e + 1..])
    else [r[..e]]
  }

  /** Segment `k` contains no '.'. */
  lemma {:induction false} SplitClauseSegmentHasNoDot(r: string, k: nat)
    requires k < |SplitClause(r)|
    ensures '.' !in SplitClause(r)[k]
    decreases |r|
  {
    IndexOfIsFirst(r, '.');
    var e := IndexOf(r, '.');
    if e >= 0 && e + 1 < |r| {
      var rest := SplitClause(r[e + 1..]);
      assert SplitClause(r) == [r[..e]] + rest;
      if k > 0 {
        SplitClauseSegmentHasNoDot(r[e + 1..], k - 1);
      }
    }
  }

  /** No segment contains a '.'. */
  lemma SplitClauseHasNoDot(r: string)
    ensures forall k :: 0 <= k < |SplitClause(r)| ==> '.' !in SplitClause(r)[k]
  {
    forall k | 0 <= k < |SplitClause(r)| ensures '.' !in SplitClause(r)[k] {
      SplitClauseSegmentHasNoDot(r, k);
    }
  }

  /** Joining the segments with '.' gives the clause back, less a final '.'. */
  lemma SplitClauseRoundTrip(r: string)
    ensures Join(SplitClause(r), '.') + (if EndsWithDot(r) then "." else "") == r
  {
    SplitClauseDropsTrailingEmpty(r);
    JoinSplit(r, '.');
    if EndsWithDot(r) {
      JoinSnoc(SplitClause(r), "", '.');
    }
  }

  /** Appending one more part appends the separator and that part. */
  lemma {:induction false} JoinSnoc(parts: seq<string>, x: string, c: char)
    requires |parts| >= 1
    ensures Join(parts + [x], c) == Join(parts, c) + [c] + x
    decreases |parts|
  {
    if |parts| > 1 {
      var tail := parts[1..];
      assert (parts + [x])[1..] == tail + [x];
      JoinSnoc(tail, x, c);
      AppendAssoc(parts[0] + [c], Join(tail, c), [c] + x);
      AppendAssoc(parts[0] + [c] + Join(tail, c), [c], x);
      AppendAssoc(Join(tail, c), [c], x);
    } else {
      assert parts + [x] == [parts[0], x];
      assert [parts[0], x][1..] == [x];
      assert Join(parts, c) == parts[0];
      assert JoinBy([x], [c]) == x;
      assert JoinBy([parts[0], x], [c]) == parts[0] + [c] + JoinBy([x], [c]);
    }
  }

  /** Against `split('.')`: the same segments, except that a final '.' loses its empty last one. */
  lemma {:induction false} SplitClauseDropsTrailingEmpty(r: string)
    ensures Split(r, '.') == SplitClause(r) + (if EndsWithDot(r) then [""] else [])
    decreases |r|
  {
    var t: seq<string> := if EndsWithDot(r) then [""] else [];
    var e := IndexOf(r, '.');
    if e >= 0 {
      var head := r[..e];
      var rest := r[e + 1..];
      assert Split(r, '.') == [head] + Split(rest, '.');
      if e + 1 < |r| {
        assert r[|r| - 1] == rest[|rest| - 1];
        assert t == if EndsWithDot(rest) then [""] else [];
        assert SplitClause(r) == [head] + SplitClause(rest);
        SplitClauseDropsTrailingEmpty(rest);
        assert Split(rest, '.') == SplitClause(rest) + t;
        AppendAssoc([head], SplitClause(rest), t);
        assert Split(r, '.') == SplitClause(r) + t;
      } else {
        assert Split(rest, '.') == [""];
        assert SplitClause(r) == [head];
        assert t == [""];
        assert Split(r, '.') == SplitClause(r) + t;
      }
    } else {
      IndexOfIsFirst(r, '.');
      assert Split(r, '.') == [r] && SplitClause(r) == [r];
      assert t == [];
      assert Split(r, '.') == SplitClause(r) + t;
    }
  }

  lemma AppendAssoc<T>(a: seq<T>, b: seq<T>, c: seq<T>)
    ensures (a + b) + c == a + (b + c)
  {
  }

  /** One turn of `_trimParam`'s loop cuts the first segment and leaves the rest to split. */
  lemma SplitClauseStep(r: string, end: nat, rest: string)
    requires end == if IndexOf(r, '.') == -1 then |r| else IndexOf(r, '.')
    requires rest == if end + 1 <= |r| then r[end + 1..] else ""
    ensures SplitClause(r) == [r[..end]] + (if |rest| > 0 then SplitClause(rest) else [])
  {
    var e := IndexOf(r, '.');
    if e < 0 {
      assert end == |r| && r[..end] == r && rest == "";
      assert SplitClause(r) == [r];
    } else if e + 1 < |r| {
      assert rest == r[e + 1..] && |rest| > 0;
      assert SplitClause(r) == [r[..e]] + SplitClause(r[e + 1..]);
    } else {
      assert rest == "";
      assert SplitClause(r) == [r[..e]];
    }
  }

  /**
   * `_trimParam`: trim the clause, report a final '.', and cut the segments
   * one at a time.
   */
  method TrimParam(req: Request, param: string) returns (segs: seq<string>)
    modifies req`error
    ensures segs == SplitClause(Trim(param))
    ensures req.error == if EndsWithDot(Trim(param))
                         then Some(WithValidationError(old(req.error), Text(TrailingDot)))
                         else old(req.error)
  {
    var result := Trim(param);
    if |result| > 0 && result[|result| - 1] == '.' {
      AddValidationError(req, Text(TrailingDot));
    }
    ghost var reported := req.error;
    ghost var whole := result;
    segs := [];
    while true
      invariant segs + SplitClause(result) == SplitClause(whole)
      invariant req.error == reported
      decreases |result|
    {
      var firstIndex := IndexOf(result, '.');
      var endOfSubString := if firstIndex == -1 then |result| else firstIndex;
      var subString := result[0..endOfSubString];
      ghost var before := result;
      // substring(end + 1, length) is empty once end + 1 passes the length
      result := if endOfSubString + 1 <= |result| then result[endOfSubString + 1..] else "";
      ghost var cut: seq<string> := if |result| > 0 then SplitClause(result) else [];
      SplitClauseStep(before, endOfSubString, result);
      assert subString == before[..endOfSubString];
      AppendAssoc(segs, [subString], cut);
      segs := segs + [subString];
      if !(IndexOf(result, '.') != -1 || |result| != 0) {
        break;
      }
    }
  }

  // ---------------------------------------------------------------------------
  // _validateTermsInParam

  /** The verdict on one segment: the token it is rewritten to, or the error that stops validation. */
  datatype Verdict = Keep(token: string) | Reject(error: ExpandError)

  /**
   * The checks `_validateTermsInParam` applies to segment `i` with text `sub`,
   * where `prev` is segment `i - 1` as already rewritten.
   */
  function CheckSegment(i: nat, sub: string, prev: string): Verdict {
    if i == 0 then
      match IsModel(sub)
      case None => Reject(UnknownRoot)
      case Some(m) => Keep(m)
    else
      match IsModel(sub)
      case Some(m) =>
        if HasMany(prev, m) then Keep(m)
        else Reject(NotHasMany(prev, m))
      case None =>
        match IsTerm(sub)
        case Some(t) =>
          if i == 1 then Keep(t)
          else Reject(TermNotSecond)
        case None =>
          match IsForeignKey(sub, prev)
          case None => Reject(NoForeignKey(sub, prev))
          case Some(k) =>
            if i == 1 then Keep(k)
            else Reject(ForeignKeyNotSecond(sub))
  }

  /** A rewritten segment: a model name, the term `all`, or a foreign key `<seg>Id`. */
  predicate IsResolvedToken(t: string) {
    IsModelName(t) || t == "all" || (|t| >= 2 && t[|t| - 2..] == "Id")
  }

  lemma KeepIsResolved(i: nat, sub: string, prev: string)
    requires CheckSegment(i, sub, prev).Keep?
    ensures IsResolvedToken(CheckSegment(i, sub, prev).token)
  {
    var k := sub + "Id";
    assert k[|k| - 2..] == "Id";
  }

  datatype Failure = Failure(index: nat, error: ExpandError)

  datatype Validation = Validation(segs: seq<string>, failure: Option<Failure>)

  /**
   * The outcome of validating `segs` from index `i` on: segments are rewritten
   * left to right until the first rejected one, which is reported and stops
   * the walk; nothing from that index on is touched.
   */
  function Validated(segs: seq<string>, i: nat): (r: Validation)
    requires i <= |segs|
    ensures |r.segs| == |segs|
    ensures r.segs[..i] == segs[..i]
    ensures r.failure.Some? ==> i <= r.failure.value.index < |segs|
    ensures r.failure.Some? ==> r.segs[r.failure.value.index..] == segs[r.failure.value.index..]
    decreases |segs| - i
  {
    if i == |segs| then Validation(segs, None)
    else
      match CheckSegment(i, segs[i], if i == 0 then "" else segs[i - 1])
      case Reject(err) => Validation(segs, Some(Failure(i, err)))
      case Keep(t) =>
        var next := segs[i := t];
        var r := Validated(next, i + 1);
        assert next[..i] == segs[..i];
        assert r.segs[..i] == r.segs[..i + 1][..i];
        assert r.segs[i] == r.segs[..i + 1][i];
        assert r.failure.Some? ==> next[r.failure.value.index..] == segs[r.failure.value.index..];
        r
  }

  lemma ValidatedUnfold(segs: seq<string>, i: nat)
    requires i < |segs|
    ensures var v := CheckSegment(i, segs[i], if i == 0 then "" else segs[i - 1]);
            Validated(segs, i) == if v.Keep? then Validated(segs[i := v.token], i + 1)
                                  else Validation(segs, Some(Failure(i, v.error)))
  {
  }

  /** The walk from `i` on leaves every segment before `i` as it was. */
  lemma ValidatedKeepsPrefix(segs: seq<string>, i: nat, j: nat)
    requires j < i <= |segs|
    ensures Validated(segs, i).segs[j] == segs[j]
  {
    var r := Validated(segs, i);
    assert r.segs[j] == r.segs[..i][j];
  }

  /** A segment before the failure index (or anywhere, without failure) has been rewritten to a resolved token. */
  lemma {:induction false} ValidatedToken(segs: seq<string>, i: nat, j: nat)
    requires i <= j < |segs|
    requires Validated(segs, i).failure.None? || j < Validated(segs, i).failure.value.index
    ensures IsResolvedToken(Validated(segs, i).segs[j])
    decreases |segs| - i
  {
    var prev := if i == 0 then "" else segs[i - 1];
    var v := CheckSegment(i, segs[i], prev);
    ValidatedUnfold(segs, i);
    if v.Reject? {
      assert false;
    } else {
      var next := segs[i := v.token];
      if j == i {
        KeepIsResolved(i, segs[i], prev);
        ValidatedKeepsPrefix(next, i + 1, i);
      } else {
        ValidatedToken(next, i + 1, j);
      }
    }
  }

  /** Every segment the walk rewrites becomes a model name, `all`, or a foreign key. */
  lemma ValidatedTokens(segs: seq<string>)
    ensures var r := Validated(segs, 0);
            forall j :: 0 <= j < (if r.failure.Some? then r.failure.value.index else |segs|)
                        ==> IsResolvedToken(r.segs[j])
  {
    var r := Validated(segs, 0);
    forall j | 0 <= j < (if r.failure.Some? then r.failure.value.index else |segs|)
      ensures IsResolvedToken(r.segs[j])
    {
      ValidatedToken(segs, 0, j);
    }
  }

  /**
   * `_validateTermsInParam`: rewrite the segments in place, left to right;
   * at the first bad one, report it and stop.
   */
  method ValidateTermsInParam(req: Request, trimParam: seq<string>) returns (result: seq<string>)
    modifies req`error
    ensures result == Validated(trimParam, 0).segs
    ensures req.error == match Validated(trimParam, 0).failure
                         case None => old(req.error)
                         case Some(f) => Some(WithValidationError(old(req.error), Text(f.error)))
  {
    result := trimParam;
    var i := 0;
    while i < |result|
      invariant 0 <= i <= |result| == |trimParam|
      invariant Validated(result, i) == Validated(trimParam, 0)
      invariant req.error == old(req.error)
    {
      var subParam := result[i];
      ghost var prev := if i == 0 then "" else result[i - 1];
      ValidatedUnfold(result, i);
      if i == 0 {
        var tmp := IsModel(subParam);
        if tmp.None? {
          AddValidationError(req, Text(UnknownRoot));
          break;
        }
        result := result[i := tmp.value];
      } else {
        var tmp := IsModel(subParam);
        if tmp.None? {
          tmp := IsTerm(subParam);
          if tmp.None? {
            tmp := IsForeignKey(subParam, result[i - 1]);
            if tmp.None? {
              AddValidationError(req, Text(NoForeignKey(subParam, result[i - 1])));
              break;
            } else if i == 1 {
              result := result[i := tmp.value];
            } else {
              AddValidationError(req, Text(ForeignKeyNotSecond(result[i])));
              break;
            }
          } else if i == 1 {
            result := result[i := tmp.value];
          } else {
            AddValidationError(req, Text(TermNotSecond));
            break;
          }
        } else if HasMany(result[i - 1], tmp.value) {
          result := result[i := tmp.value];
        } else {
          AddValidationError(req, Text(NotHasMany(result[i - 1], tmp.value)));
          break;
        }
      }
      assert CheckSegment(i, subParam, prev) == Keep(result[i]);
      i := i + 1;
    }
  }

  /** The model name a raw segment is the plural alias of, or "" when it is none. */
  function NameOf(sub: string): string {
    IsModel(sub).GetOr("")
  }

  /**
   * The grammar of a clause stated on its raw segments: segment 0 is a
   * model's plural alias; each later segment is the plural alias of a model
   * the previous one has many of, or else, at position 1 only, the term `all`
   * or a foreign key of the root model.
   */
  ghost predicate Accepts(segs: seq<string>, j: nat)
    requires j < |segs|
  {
    if j == 0 then IsModel(segs[0]).Some?
    else if IsModel(segs[j]).Some? then HasMany(NameOf(segs[j - 1]), NameOf(segs[j]))
    else j == 1 && (segs[1] == "all" || IsForeignKey(segs[1], NameOf(segs[0])).Some?)
  }

  ghost predicate ValidClause(segs: seq<string>) {
    |segs| >= 1 && forall j :: 0 <= j < |segs| ==> Accepts(segs, j)
  }

  /** Every segment from index `i` on is accepted, stated one segment at a time. */
  ghost predicate AcceptsFrom(segs: seq<string>, i: nat)
    requires i <= |segs|
    decreases |segs| - i
  {
    i == |segs| || (Accepts(segs, i) && AcceptsFrom(segs, i + 1))
  }

  /** Each segment from `i` on is accepted when all of them are. */
  lemma {:induction false} AcceptsFromAt(segs: seq<string>, i: nat, j: nat)
    requires i <= j < |segs| && AcceptsFrom(segs, i)
    ensures Accepts(segs, j)
    decreases j - i
  {
    if i < j {
      AcceptsFromAt(segs, i + 1, j);
    }
  }

  lemma {:induction false} AcceptsFromOfEach(segs: seq<string>, i: nat)
    requires i <= |segs|
    requires forall j :: i <= j < |segs| ==> Accepts(segs, j)
    ensures AcceptsFrom(segs, i)
    decreases |segs| - i
  {
    if i < |segs| {
      assert Accepts(segs, i);
      AcceptsFromOfEach(segs, i + 1);
    }
  }

  lemma AcceptsFromAll(segs: seq<string>, i: nat)
    requires i <= |segs|
    ensures AcceptsFrom(segs, i) <==> forall j :: i <= j < |segs| ==> Accepts(segs, j)
  {
    if AcceptsFrom(segs, i) {
      forall j | i <= j < |segs| ensures Accepts(segs, j) {
        AcceptsFromAt(segs, i, j);
      }
    } else if forall j :: i <= j < |segs| ==> Accepts(segs, j) {
      AcceptsFromOfEach(segs, i);
    }
  }

  /** What an accepted raw segment is rewritten to. */
  function Resolve(sub: string): string {
    if IsModel(sub).Some? then NameOf(sub) else if sub == "all" then "all" else sub + "Id"
  }

  /** A rewritten non-model token never names a model, so it has no children and no foreign keys. */
  lemma ResolvedPrevious(sub: string)
    ensures IsModel(sub).Some? ==> Resolve(sub) == NameOf(sub) && IsModelName(NameOf(sub))
    ensures IsModel(sub).None? ==> Find(Resolve(sub)).None? && Find(NameOf(sub)).None?
  {
    ReservedAreNotModels(sub);
  }

  /** One step of the walk agrees with the grammar, once segment 0 is known to name a model. */
  lemma StepAgrees(segs: seq<string>, i: nat, prev: string)
    requires i < |segs|
    requires i > 0 ==> IsModel(segs[0]).Some?
    requires prev == if i == 0 then "" else Resolve(segs[i - 1])
    ensures CheckSegment(i, segs[i], prev).Keep? <==> Accepts(segs, i)
    ensures CheckSegment(i, segs[i], prev).Keep? ==> CheckSegment(i, segs[i], prev).token == Resolve(segs[i])
  {
    if i > 0 {
      ResolvedPrevious(segs[i - 1]);
      ResolvedPrevious(segs[0]);
    }
  }

  lemma {:induction false} ValidatedFrom(segs: seq<string>, w: seq<string>, i: nat)
    requires i <= |segs| == |w|
    requires w[i..] == segs[i..]
    requires i > 0 ==> IsModel(segs[0]).Some?
    requires forall j :: 0 <= j < i ==> w[j] == Resolve(segs[j])
    ensures Validated(w, i).failure.None? <==> AcceptsFrom(segs, i)
    ensures Validated(w, i).failure.None? ==> forall j :: 0 <= j < |segs| ==> Validated(w, i).segs[j] == Resolve(segs[j])
    decreases |segs| - i
  {
    if i < |segs| {
      var prev := if i == 0 then "" else w[i - 1];
      assert w[i] == segs[i] by { assert w[i..][0] == segs[i..][0]; }
      StepAgrees(segs, i, prev);
      var v := CheckSegment(i, w[i], prev);
      ValidatedUnfold(w, i);
      if v.Keep? {
        var w' := w[i := v.token];
        assert w'[i + 1..] == segs[i + 1..] by {
          assert w'[i + 1..] == w[i + 1..] && w[i + 1..] == w[i..][1..];
        }
        assert i == 0 ==> Accepts(segs, 0);
        forall j | 0 <= j < i + 1
          ensures w'[j] == Resolve(segs[j])
        {
          if j < i {
            assert w'[j] == w[j];
          }
        }
        ValidatedFrom(segs, w', i + 1);
      }
    }
  }

  /**
   * Validation succeeds exactly on the clauses of the grammar, and then every
   * segment is rewritten to its model name, `all`, or its foreign key.
   */
  lemma ValidatedIffValidClause(segs: seq<string>)
    requires |segs| >= 1
    ensures Validated(segs, 0).failure.None? <==> ValidClause(segs)
    ensures ValidClause(segs) ==> forall j :: 0 <= j < |segs| ==> Validated(segs, 0).segs[j] == Resolve(segs[j])
  {
    ValidatedFrom(segs, segs, 0);
    AcceptsFromAll(segs, 0);
  }

  /** After `all` or a foreign key at index 1, no segment is accepted at index 2. */
  lemma NothingFollowsNonModel(segs: seq<string>)
    requires |segs| >= 2
    ensures |segs| > 2 && IsModel(segs[1]).None? ==> !Accepts(segs, 2)
  {
    ResolvedPrevious(segs[1]);
  }

  /**
   * In a clause that validates: segment 0 is a model name; every later model
   * has the previous model as parent; `all` or a foreign key appears only at
   * index 1 and ends the clause.
   */
  lemma ValidClauseShape(segs: seq<string>)
    requires |segs| >= 1 && Validated(segs, 0).failure.None?
    ensures var out := Validated(segs, 0).segs;
      && IsModelName(out[0])
      && (forall j :: 1 <= j < |out| && IsModelName(out[j]) ==> HasMany(out[j - 1], out[j]))
      && (forall j :: 1 <= j < |out| && !IsModelName(out[j]) ==> j == 1 && |out| == 2)
      && (|out| == 2 && !IsModelName(out[1]) ==> out[1] == "all" || IsForeignKey(segs[1], out[0]) == Some(out[1]))
  {
    var out := Validated(segs, 0).segs;
    ValidatedIffValidClause(segs);
    assert Accepts(segs, 0);
    ResolvedPrevious(segs[0]);
    forall j | 1 <= j < |out| && IsModelName(out[j])
      ensures HasMany(out[j - 1], out[j])
    {
      assert Accepts(segs, j);
      ResolvedPrevious(segs[j]);
      ResolvedPrevious(segs[j - 1]);
    }
    forall j | 1 <= j < |out| && !IsModelName(out[j])
      ensures j == 1 && |out| == 2
    {
      assert Accepts(segs, j);
      ResolvedPrevious(segs[j]);
      NothingFollowsNonModel(segs);
    }
    if |out| == 2 && !IsModelName(out[1]) {
      assert Accepts(segs, 1);
      ResolvedPrevious(segs[1]);
    }
  }

  // ---------------------------------------------------------------------------
  // assembleExpandParam

  /** A clause's rules and the depth inferred for it. */
  datatype ParamObject = ParamObject(rules: seq<string>, depth: int)

  function FirstDiffFrom(param: seq<string>, i: nat): (k: nat)
    requires 1 <= i <= |param|
    ensures i <= k <= |param|
    ensures forall j :: i <= j < k ==> param[j] == param[0]
    ensures k < |param| ==> param[k] != param[0]
    decreases |param| - i
  {
    if i == |param| || param[i] != param[0] then i else FirstDiffFrom(param, i + 1)
  }

  /** The first index whose segment differs from segment 0, or the length when there is none. */
  function FirstDiff(param: seq<string>): (k: nat)
    requires |param| >= 1
    ensures 1 <= k <= |param|
    ensures forall j :: 1 <= j < k ==> param[j] == param[0]
    ensures k < |param| ==> param[k] != param[0]
  {
    FirstDiffFrom(param, 1)
  }

  /**
   * The object `assembleExpandParam` builds: with k the first index that
   * differs from index 0, the depth is the length when there is no such k,
   * 999999999 when segment k is `all`, and k otherwise; a depth below the
   * length is replaced by -1 and the first rule is dropped.
   */
  function Assembled(param: seq<string>): (obj: ParamObject)
  {
    if |param| == 0 then ParamObject([], 1)
    else
      var k := FirstDiff(param);
      var depth := if k == |param| then |param| else if param[k] == "all" then UnboundedDepth else k;
      if depth < |param| then ParamObject(param[1..], -1) else ParamObject(param, depth)
  }

  /** `assembleExpandParam`: count the repeats of segment 0, then drop the first rule when the depth falls short. */
  method AssembleExpandParam(param: seq<string>) returns (obj: ParamObject)
    ensures obj == Assembled(param)
    ensures param == [] ==> obj == ParamObject([], 1)
    ensures |param| >= 1 && FirstDiff(param) == |param| ==> obj == ParamObject(param, |param|)
    ensures (|param| >= 1 && FirstDiff(param) < |param| && param[FirstDiff(param)] == "all"
             && |param| <= UnboundedDepth) ==> obj == ParamObject(param, UnboundedDepth)
    ensures (|param| >= 1 && FirstDiff(param) < |param|
             && (param[FirstDiff(param)] != "all" || |param| > UnboundedDepth)) ==> obj == ParamObject(param[1..], -1)
    ensures |obj.rules| == |param| || |obj.rules| == |param| - 1
  {
    var rules := param;
    var depth := 1;
    if |param| > 0 {
      var model := param[0];
      var i := 1;
      while i < |param|
        invariant 1 <= i <= |param|
        invariant depth == i
        invariant forall j :: 1 <= j < i ==> param[j] == model
      {
        if param[i] == model {
          depth := depth + 1;
        } else {
          if IsTerm(param[i]) == Some("all") {
            depth := UnboundedDepth;
          }
          break;
        }
        i := i + 1;
      }
    }
    if depth < |rules| {
      rules := rules[1..];
      depth := -1;
    }
    obj := ParamObject(rules, depth);
  }

  /**
   * The depth policy of a validated clause: n repeats of one model give depth
   * n; a model followed by `all` gives 999999999; a model followed by a
   * foreign key gives -1 and keeps only the foreign key.
   */
  lemma DepthOfValidClause(segs: seq<string>)
    requires |segs| >= 1 && Validated(segs, 0).failure.None?
    ensures var out := Validated(segs, 0).segs;
      && ((forall j :: 0 <= j < |out| ==> out[j] == out[0]) ==> Assembled(out) == ParamObject(out, |out|))
      && (|out| == 2 && out[1] == "all" ==> Assembled(out) == ParamObject(out, UnboundedDepth))
      && (|out| == 2 && out[1] != "all" && !IsModelName(out[1]) ==> Assembled(out) == ParamObject([out[1]], -1))
  {
    var out := Validated(segs, 0).segs;
    ValidClauseShape(segs);
    if forall j :: 0 <= j < |out| ==> out[j] == out[0] {
      assert FirstDiff(out) == |out|;
    }
    if |out| == 2 && !IsModelName(out[1]) {
      assert out[1] != out[0];
      assert FirstDiff(out) == 1;
    }
  }

  // ---------------------------------------------------------------------------
  // _confirmDepth

  /** `expandRules[0]` used as an object key: an empty rule list gives the key `undefined`. */
  function RootKey(rules: seq<string>): string {
    if |rules| > 0 then rules[0] else "undefined"
  }

  datatype DepthCheck = DepthCheck(depth: map<string, int>, errors: seq<ExpandError>)

  /** One clause of `_confirmDepth`: record a first positive depth, report a different later one. */
  function DepthStep(acc: DepthCheck, o: ParamObject): DepthCheck {
    if o.depth <= 0 then acc
    else
      var key := RootKey(o.rules);
      if key !in acc.depth then DepthCheck(acc.depth[key := o.depth], acc.errors)
      else if acc.depth[key] != o.depth then DepthCheck(acc.depth, acc.errors + [DepthConflict(key)])
      else acc
  }

  /** The depth dictionary and the messages `_confirmDepth` produces for `objs`, in order. */
  function ConfirmDepths(objs: seq<ParamObject>): DepthCheck
    decreases |objs|
  {
    if objs == [] then DepthCheck(map[], [])
    else DepthStep(ConfirmDepths(objs[..|objs| - 1]), objs[|objs| - 1])
  }

  /** The depth of the first clause with a positive depth and root `key`. */
  function FirstPositiveDepth(objs: seq<ParamObject>, key: string): (r: Option<int>)
    ensures r.Some? ==> r.value > 0
  {
    if objs == [] then None
    else if objs[0].depth > 0 && RootKey(objs[0].rules) == key then Some(objs[0].depth)
    else FirstPositiveDepth(objs[1..], key)
  }

  /** Clause `i` has a positive depth that differs from the first one given for its root. */
  predicate Conflicts(objs: seq<ParamObject>, i: nat)
    requires i < |objs|
  {
    objs[i].depth > 0
    && match FirstPositiveDepth(objs[..i], RootKey(objs[i].rules))
       case None => false
       case Some(d) => d != objs[i].depth
  }

  /** One error per conflicting clause, in clause order. */
  function ConflictErrors(objs: seq<ParamObject>): seq<ExpandError>
    decreases |objs|
  {
    if objs == [] then []
    else
      var n := |objs| - 1;
      ConflictErrors(objs[..n]) + (if Conflicts(objs, n) then [DepthConflict(RootKey(objs[n].rules))] else [])
  }

  lemma {:induction false} FirstPositiveDepthSnoc(objs: seq<ParamObject>, o: ParamObject, key: string)
    ensures FirstPositiveDepth(objs + [o], key)
            == if FirstPositiveDepth(objs, key).Some? then FirstPositiveDepth(objs, key)
               else if o.depth > 0 && RootKey(o.rules) == key then Some(o.depth)
               else None
    decreases |objs|
  {
    if objs == [] {
      assert [o][1..] == [];
    } else {
      assert (objs + [o])[1..] == objs[1..] + [o];
      FirstPositiveDepthSnoc(objs[1..], o, key);
    }
  }

  /**
   * `_confirmDepth` records, for each root, the first positive depth given
   * for it, ignores clauses with depth <= 0, and reports every later clause
   * whose positive depth differs from the recorded one.
   */
  lemma {:induction false} ConfirmDepthsSpec(objs: seq<ParamObject>)
    ensures forall key :: key in ConfirmDepths(objs).depth <==> FirstPositiveDepth(objs, key).Some?
    ensures forall key :: key in ConfirmDepths(objs).depth ==> ConfirmDepths(objs).depth[key] == FirstPositiveDepth(objs, key).value
    ensures ConfirmDepths(objs).errors == ConflictErrors(objs)
    decreases |objs|
  {
    if objs != [] {
      var n := |objs| - 1;
      var prefix := objs[..n];
      var o := objs[n];
      ConfirmDepthsSpec(prefix);
      assert objs == prefix + [o];
      forall key ensures FirstPositiveDepth(objs, key)
          == if FirstPositiveDepth(prefix, key).Some? then FirstPositiveDepth(prefix, key)
             else if o.depth > 0 && RootKey(o.rules) == key then Some(o.depth) else None
      {
        FirstPositiveDepthSnoc(prefix, o, key);
      }
    }
  }

  /** Clauses with equal depths never conflict; a clause with depth <= 0 never does. */
  lemma EqualDepthsDoNotConflict(objs: seq<ParamObject>, i: nat)
    requires i < |objs|
    requires forall j :: 0 <= j < i && RootKey(objs[j].rules) == RootKey(objs[i].rules) && objs[j].depth > 0
               ==> objs[j].depth == objs[i].depth
    ensures !Conflicts(objs, i)
  {
    var key := RootKey(objs[i].rules);
    FirstPositiveDepthIsSome(objs[..i], key);
  }

  /**
   * A root has a first positive depth exactly when some clause with that
   * root has a positive depth, and that depth is one such clause's.
   */
  lemma {:induction false} FirstPositiveDepthIsSome(objs: seq<ParamObject>, key: string)
    ensures FirstPositiveDepth(objs, key).Some? ==>
      exists j :: 0 <= j < |objs| && objs[j].depth > 0 && RootKey(objs[j].rules) == key
                  && objs[j].depth == FirstPositiveDepth(objs, key).value
    ensures (exists j :: 0 <= j < |objs| && objs[j].depth > 0 && RootKey(objs[j].rules) == key)
            ==> FirstPositiveDepth(objs, key).Some?
    decreases |objs|
  {
    if objs != [] && !(objs[0].depth > 0 && RootKey(objs[0].rules) == key) {
      FirstPositiveDepthIsSome(objs[1..], key);
      if FirstPositiveDepth(objs, key).Some? {
        var j :| 0 <= j < |objs[1..]| && objs[1..][j].depth > 0 && RootKey(objs[1..][j].rules) == key
                 && objs[1..][j].depth == FirstPositiveDepth(objs[1..], key).value;
        assert objs[j + 1] == objs[1..][j];
      }
      if exists j :: 0 <= j < |objs| && objs[j].depth > 0 && RootKey(objs[j].rules) == key {
        var j :| 0 <= j < |objs| && objs[j].depth > 0 && RootKey(objs[j].rules) == key;
        assert objs[1..][j - 1] == objs[j];
      }
    }
  }

  /** The rules of every clause, in order: what `_confirmDepth` leaves in the list. */
  function RulesOf(objs: seq<ParamObject>): (params: seq<seq<string>>)
    ensures |params| == |objs|
    ensures forall i :: 0 <= i < |objs| ==> params[i] == objs[i].rules
  {
    seq(|objs|, i requires 0 <= i < |objs| => objs[i].rules)
  }

  lemma RulesOfSnoc(objs: seq<ParamObject>, j: nat)
    requires j < |objs|
    ensures RulesOf(objs[..j + 1]) == RulesOf(objs[..j]) + [objs[j].rules]
  {
    assert RulesOf(objs[..j + 1])[j] == objs[j].rules;
  }

  /** Reporting the messages of `errs` and then that of `x` is reporting the messages of `errs + [x]`. */
  lemma ReportOneMore(e: Option<ReqError>, errs: seq<ExpandError>, x: ExpandError)
    ensures Some(WithValidationError(WithValidationErrors(e, Texts(errs)), Text(x)))
            == WithValidationErrors(e, Texts(errs + [x]))
  {
    TextsConcat(errs, [x]);
    assert Texts([x]) == [Text(x)];
    WithValidationErrorsSingle(WithValidationErrors(e, Texts(errs)), Text(x));
    WithValidationErrorsConcat(e, Texts(errs), [Text(x)]);
  }

  /**
   * One turn of `_confirmDepth`'s first loop: record the depth of a clause
   * whose root has none yet, report one that differs from the recorded one.
   * `before` is the error the request had when the loop started and `acc`
   * what the earlier clauses produced.
   */
  method ConfirmOne(req: Request, ghost before: Option<ReqError>, ghost acc: DepthCheck,
                    depth: map<string, int>, paramObj: ParamObject)
    returns (depth': map<string, int>)
    requires depth == acc.depth
    requires req.error == WithValidationErrors(before, Texts(acc.errors))
    modifies req`error
    ensures depth' == DepthStep(acc, paramObj).depth
    ensures req.error == WithValidationErrors(before, Texts(DepthStep(acc, paramObj).errors))
  {
    depth' := depth;
    if paramObj.depth > 0 {
      var key := RootKey(paramObj.rules);
      if key !in depth {
        depth' := depth[key := paramObj.depth];
      } else if depth[key] != paramObj.depth {
        AddValidationError(req, Text(DepthConflict(key)));
        ReportOneMore(before, acc.errors, DepthConflict(key));
      }
    }
  }

  /**
   * `_confirmDepth`: build the depth dictionary, report conflicts, then
   * replace every element of the list by its rules.
   */
  method ConfirmDepth(req: Request, expandParams: seq<ParamObject>) returns (params: seq<seq<string>>, depth: map<string, int>)
    modifies req`error
    ensures depth == ConfirmDepths(expandParams).depth
    ensures req.error == WithValidationErrors(old(req.error), Texts(ConfirmDepths(expandParams).errors))
    ensures params == RulesOf(expandParams)
  {
    depth := map[];
    var i := 0;
    while i < |expandParams|
      invariant 0 <= i <= |expandParams|
      invariant depth == ConfirmDepths(expandParams[..i]).depth
      invariant req.error == WithValidationErrors(old(req.error), Texts(ConfirmDepths(expandParams[..i]).errors))
    {
      assert expandParams[..i + 1][..i] == expandParams[..i];
      depth := ConfirmOne(req, old(req.error), ConfirmDepths(expandParams[..i]), depth, expandParams[i]);
      i := i + 1;
    }
    assert expandParams[..i] == expandParams;
    ghost var reported := req.error;
    params := [];
    for j := 0 to |expandParams|
      invariant params == RulesOf(expandParams[..j])
      invariant req.error == reported
    {
      RulesOfSnoc(expandParams, j);
      params := params + [expandParams[j].rules];
    }
    assert expandParams[..|expandParams|] == expandParams;
  }

  // ---------------------------------------------------------------------------
  // parseExpandParam

  /** The errors one clause adds and the object it becomes. */
  datatype ClausePlan = ClausePlan(errors: seq<ExpandError>, obj: ParamObject)

  function PlanClause(param: string): (p: ClausePlan)
    ensures |p.errors| <= 2
  {
    var trimmed := Trim(param);
    var v := Validated(SplitClause(trimmed), 0);
    ClausePlan(
      (if EndsWithDot(trimmed) then [TrailingDot] else [])
        + (if v.failure.Some? then [v.failure.value.error] else []),
      Assembled(v.segs))
  }

  datatype Plan = Plan(errors: seq<ExpandError>, objs: seq<ParamObject>)

  /** What the forEach over the clauses accumulates: each clause's errors in turn, and its object. */
  function PlanClauses(clauses: seq<string>): (p: Plan)
    ensures |p.objs| == |clauses|
    decreases |clauses|
  {
    if clauses == [] then Plan([], [])
    else
      var n := |clauses| - 1;
      var p := PlanClauses(clauses[..n]);
      var c := PlanClause(clauses[n]);
      Plan(p.errors + c.errors, p.objs + [c.obj])
  }

  datatype PlannedExpand = PlannedExpand(errors: seq<ExpandError>, query: ExpandQuery)

  /** Every validation error the clauses produce, and the `expandQuery` they become. */
  function PlannedQuery(clauses: seq<string>): PlannedExpand {
    var p := PlanClauses(clauses);
    var c := ConfirmDepths(p.objs);
    PlannedExpand(p.errors + c.errors, ExpandQuery(RulesOf(p.objs), c.depth))
  }

  /**
   * The clauses a request's expand value stands for: each element of an
   * array, or a single string as one clause (see ClausesAsWritten).
   */
  function Clauses(v: QueryValue): seq<string> {
    match v
    case Multiple(items) => items
    case Single(text) => [text]
  }

  /**
   * What `_.forEach(params, ...)` iterates as written: the elements of an
   * array, but the characters of a plain string, each as a clause of its own.
   */
  function ClausesAsWritten(v: QueryValue): seq<string> {
    match v
    case Multiple(items) => items
    case Single(text) => seq(|text|, i requires 0 <= i < |text| => [text[i]])
  }

  function NotAllowedMessage(httpMethod: string): string {
    "Expand parameter is not allowed for " + httpMethod + " call."
  }

  /** Whether the request carries a truthy expand value. */
  predicate HasExpand(query: map<string, QueryValue>) {
    "expand" in query && Truthy(query["expand"])
  }

  lemma WithValidationErrorsSingle(e: Option<ReqError>, msg: string)
    ensures WithValidationErrors(e, [msg]) == Some(WithValidationError(e, msg))
  {
    assert [msg][..0] == [];
  }

  /** The reports `_trimParam` and then `_validateTermsInParam` make for one clause are its planned errors. */
  lemma ClauseReports(e: Option<ReqError>, param: string)
    ensures var trimmed := Trim(param);
            var afterTrim := if EndsWithDot(trimmed) then Some(WithValidationError(e, Text(TrailingDot))) else e;
            WithValidationErrors(e, Texts(PlanClause(param).errors))
            == match Validated(SplitClause(trimmed), 0).failure
               case None => afterTrim
               case Some(f) => Some(WithValidationError(afterTrim, Text(f.error)))
  {
    var trimmed := Trim(param);
    var v := Validated(SplitClause(trimmed), 0);
    var dot: seq<ExpandError> := if EndsWithDot(trimmed) then [TrailingDot] else [];
    var bad: seq<ExpandError> := if v.failure.Some? then [v.failure.value.error] else [];
    TextsConcat(dot, bad);
    WithValidationErrorsConcat(e, Texts(dot), Texts(bad));
    WithValidationErrorsSingle(e, Text(TrailingDot));
    if v.failure.Some? {
      WithValidationErrorsSingle(WithValidationErrors(e, Texts(dot)), Text(v.failure.value.error));
    }
  }

  /** The body `parseExpandParam` runs for each clause: trim, validate, assemble. */
  method PlanOne(req: Request, param: string) returns (obj: ParamObject)
    modifies req`error
    ensures obj == PlanClause(param).obj
    ensures req.error == WithValidationErrors(old(req.error), Texts(PlanClause(param).errors))
  {
    var segs := TrimParam(req, param);
    segs := ValidateTermsInParam(req, segs);
    obj := AssembleExpandParam(segs);
    ClauseReports(old(req.error), param);
  }

  /**
   * The GET branch of `parseExpandParam`: plan every clause in order, then
   * check the depths; the result is the new `expandQuery`.
   */
  method PlanExpand(req: Request, clauses: seq<string>) returns (query: ExpandQuery)
    modifies req`error
    ensures query == PlannedQuery(clauses).query
    ensures req.error == WithValidationErrors(old(req.error), Texts(PlannedQuery(clauses).errors))
  {
    var expandParams: seq<ParamObject> := [];
    for i := 0 to |clauses|
      invariant expandParams == PlanClauses(clauses[..i]).objs
      invariant req.error == WithValidationErrors(old(req.error), Texts(PlanClauses(clauses[..i]).errors))
    {
      var obj := PlanOne(req, clauses[i]);
      expandParams := expandParams + [obj];
      PlanClausesSnoc(old(req.error), clauses, i);
    }
    assert clauses[..|clauses|] == clauses;
    var rulesList, depth := ConfirmDepth(req, expandParams);
    TextsConcat(PlanClauses(clauses).errors, ConfirmDepths(expandParams).errors);
    WithValidationErrorsConcat(old(req.error), Texts(PlanClauses(clauses).errors), Texts(ConfirmDepths(expandParams).errors));
    query := ExpandQuery(rulesList, depth);
  }

  lemma PlanClausesSnoc(e: Option<ReqError>, clauses: seq<string>, i: nat)
    requires i < |clauses|
    ensures PlanClauses(clauses[..i + 1]).objs == PlanClauses(clauses[..i]).objs + [PlanClause(clauses[i]).obj]
    ensures WithValidationErrors(e, Texts(PlanClauses(clauses[..i + 1]).errors))
            == WithValidationErrors(WithValidationErrors(e, Texts(PlanClauses(clauses[..i]).errors)), Texts(PlanClause(clauses[i]).errors))
  {
    assert clauses[..i + 1][..i] == clauses[..i];
    TextsConcat(PlanClauses(clauses[..i]).errors, PlanClause(clauses[i]).errors);
    WithValidationErrorsConcat(e, Texts(PlanClauses(clauses[..i]).errors), Texts(PlanClause(clauses[i]).errors));
  }

  /**
   * `parseExpandParam`: always remove `expand` from the query; a non-GET
   * request with an expand value gets one validation error; a GET request
   * gets the plan of its clauses as `expandQuery`, with all their errors.
   */
  method ParseExpandParam(req: Request)
    modifies req`query, req`error, req`expandQuery
    ensures req.query == old(req.query) - {"expand"}
    ensures !HasExpand(old(req.query)) ==> req.error == old(req.error) && req.expandQuery == old(req.expandQuery)
    ensures HasExpand(old(req.query)) && req.httpMethod != "GET" ==>
              req.error == Some(WithValidationError(old(req.error), NotAllowedMessage(req.httpMethod)))
              && req.expandQuery == old(req.expandQuery)
    ensures HasExpand(old(req.query)) && req.httpMethod == "GET" ==>
              var planned := PlannedQuery(Clauses(old(req.query)["expand"]));
              req.error == WithValidationErrors(old(req.error), Texts(planned.errors))
              && req.expandQuery == Some(planned.query)
  {
    var params := if "expand" in req.query then Some(req.query["expand"]) else None;
    req.query := req.query - {"expand"};
    if params.Some? && Truthy(params.value) {
      if req.httpMethod != "GET" {
        AddValidationError(req, NotAllowedMessage(req.httpMethod));
      } else {
        var query := PlanExpand(req, Clauses(params.value));
        req.expandQuery := Some(query);
      }
    }
  }

  lemma ShortClauseSegment(c: string)
    requires |c| <= 1
    ensures |SplitClause(Trim(c))| == 1 && |SplitClause(Trim(c))[0]| <= 1
  {
    var t := Trim(c);
    if t == "." {
      assert IndexOf(t, '.') == 0;
      assert SplitClause(t) == [""];
    } else {
      assert '.' !in t;
      assert SplitClause(t) == [t];
    }
  }

  /** A segment of at most one character is no plural alias, so validation stops at once. */
  lemma ShortSegmentFails(segs: seq<string>)
    requires |segs| >= 1 && |segs[0]| <= 1
    ensures Validated(segs, 0).failure == Some(Failure(0, UnknownRoot))
  {
    ValidatedUnfold(segs, 0);
  }

  /** A string of at most one character never starts a clause: no plural alias is that short. */
  lemma ShortClauseFails(c: string)
    requires |c| <= 1
    ensures |PlanClause(c).errors| >= 1
  {
    ShortClauseSegment(c);
    ShortSegmentFails(SplitClause(Trim(c)));
  }

  /** Planning one more clause appends that clause's errors. */
  lemma PlanClausesErrorsSnoc(clauses: seq<string>)
    requires |clauses| >= 1
    ensures |PlanClauses(clauses).errors|
            == |PlanClauses(clauses[..|clauses| - 1]).errors| + |PlanClause(clauses[|clauses| - 1]).errors|
  {
  }

  /** Clauses that each report an error report, together, at least one error per clause. */
  lemma {:induction false} PlanClausesErrorsAtLeast(clauses: seq<string>)
    requires forall k :: 0 <= k < |clauses| ==> |PlanClause(clauses[k]).errors| >= 1
    ensures |PlanClauses(clauses).errors| >= |clauses|
    decreases |clauses|
  {
    if clauses != [] {
      var n := |clauses| - 1;
      assert forall k :: 0 <= k < n ==> clauses[..n][k] == clauses[k];
      PlanClausesErrorsAtLeast(clauses[..n]);
      PlanClausesErrorsSnoc(clauses);
    }
  }

  /**
   * As written, `_.forEach` over a plain string (`?expand=messages`) visits
   * its characters, and no single character starts a clause: the request
   * gets at least one validation error per character and never an expansion.
   */
  lemma StringExpandAsWrittenFails(text: string)
    requires text != ""
    ensures |PlannedQuery(ClausesAsWritten(Single(text))).errors| >= |text|
  {
    var clauses := ClausesAsWritten(Single(text));
    forall k | 0 <= k < |clauses|
      ensures |PlanClause(clauses[k]).errors| >= 1
    {
      ShortClauseFails(clauses[k]);
    }
    PlanClausesErrorsAtLeast(clauses);
  }

  /** A clause without a final '.' that validates plans to no error and the assembled rewritten segments. */
  lemma PlanCleanClause(param: string, segs: seq<string>, out: seq<string>)
    requires !EndsWithDot(Trim(param)) && SplitClause(Trim(param)) == segs
    requires Validated(segs, 0) == Validation(out, None)
    ensures PlanClause(param) == ClausePlan([], Assembled(out))
  {
  }

  lemma MessagesRootKept()
    ensures CheckSegment(0, "messages", "") == Keep("Message")
  {
  }

  /** `<field>` after `messages` is the foreign key `<field>Id` when Message has that attribute. */
  lemma ForeignKeyKept(field: string)
    requires field !in {"messages", "discussions", "all"}
    requires HasKey(Message, field + "Id")
    ensures CheckSegment(1, field, "Message") == Keep(field + "Id")
  {
  }

  lemma PlanMessagesSegments(clause: string)
    requires clause == "messages"
    ensures !EndsWithDot(Trim(clause)) && SplitClause(Trim(clause)) == [clause]
  {
    assert clause[0] == 'm' && clause[|clause| - 1] == 's';
    TrimOfTrimmed(clause);
    assert '.' !in clause by {
      assert forall k :: 0 <= k < |clause| ==> clause[k] in "mesag";
    }
    assert IndexOf(clause, '.') == -1;
  }

  /** The clause `messages` alone: expand child messages to depth 1. */
  lemma PlanMessages(clause: string)
    requires clause == "messages"
    ensures PlanClause(clause) == ClausePlan([], ParamObject(["Message"], 1))
  {
    PlanMessagesSegments(clause);
    MessagesRootKept();
    ValidatedUnfold([clause], 0);
    assert [clause][0 := "Message"] == ["Message"];
    AssembledSingle("Message");
    PlanCleanClause(clause, [clause], ["Message"]);
  }

  /** A one-rule clause has depth 1. */
  lemma AssembledSingle(root: string)
    ensures Assembled([root]) == ParamObject([root], 1)
  {
    assert FirstDiff([root]) == 1;
  }

  /** A root followed by a different rule other than `all` keeps only that rule, with depth -1. */
  lemma AssembledPair(root: string, rule: string)
    requires rule != root && rule != "all"
    ensures Assembled([root, rule]) == ParamObject([rule], -1)
  {
    assert FirstDiff([root, rule]) == 1;
    assert [root, rule][1..] == [rule];
  }

  lemma PlanForeignKeySegments(field: string, clause: string)
    requires clause == "messages." + field
    requires field != [] && '.' !in field && !IsSpace(field[|field| - 1])
    ensures !EndsWithDot(Trim(clause)) && SplitClause(Trim(clause)) == ["messages", field]
  {
    TrimOfTrimmed(clause);
    assert clause[8] == '.' && clause[..8] == "messages" && clause[9..] == field;
    assert "messages" + ['.'] + field == clause;
    IndexOfAfterPrefix("messages", field, '.');
    IndexOfIsFirst(field, '.');
    assert SplitClause(field) == [field];
    assert SplitClause(clause) == [clause[..8]] + SplitClause(clause[9..]);
  }

  lemma ValidatedForeignKey(field: string)
    requires field !in {"messages", "discussions", "all"}
    requires HasKey(Message, field + "Id")
    ensures Validated(["messages", field], 0) == Validation(["Message", field + "Id"], None)
  {
    MessagesRootKept();
    ValidatedUnfold(["messages", field], 0);
    assert ["messages", field][0 := "Message"] == ["Message", field];
    ForeignKeyKept(field);
    ValidatedUnfold(["Message", field], 1);
    assert ["Message", field][1 := field + "Id"] == ["Message", field + "Id"];
  }

  /** `messages.<field>` where `<field>Id` is a Message attribute: a foreign-key clause with depth -1. */
  lemma PlanMessagesForeignKey(field: string, clause: string)
    requires clause == "messages." + field
    requires field != [] && '.' !in field && !IsSpace(field[|field| - 1])
    requires field !in {"messages", "discussions", "all"}
    requires HasKey(Message, field + "Id")
    ensures PlanClause(clause) == ClausePlan([], ParamObject([field + "Id"], -1))
  {
    PlanForeignKeySegments(field, clause);
    ValidatedForeignKey(field);
    AssembledForeignKey(field);
    PlanCleanClause(clause, ["messages", field], ["Message", field + "Id"]);
  }

  /** A Message-rooted clause whose second rule is a foreign key has that key as its only rule. */
  lemma AssembledForeignKey(field: string)
    ensures Assembled(["Message", field + "Id"]) == ParamObject([field + "Id"], -1)
  {
    ReservedAreNotModels(field);
    AssembledPair("Message", field + "Id");
  }

  /** The two references a Message holds: its discussion and its parent message. */
  lemma MessageForeignKeys()
    ensures "discussion" + "Id" == "discussionId" && HasKey(Message, "discussion" + "Id")
    ensures "parentMessage" + "Id" == "parentMessageId" && HasKey(Message, "parentMessage" + "Id")
  {
    assert "discussion" + "Id" == "discussionId";
    assert "parentMessage" + "Id" == "parentMessageId";
  }

  /** `messages.discussion`, from test/controllers/messages.js:225: the foreign key `discussionId`. */
  lemma PlanMessagesDiscussion(clause: string)
    requires clause == "messages.discussion"
    ensures PlanClause(clause) == ClausePlan([], ParamObject(["discussionId"], -1))
  {
    MessageForeignKeys();
    PlanMessagesForeignKey("discussion", clause);
  }

  /** `messages.parentMessage`, from test/controllers/messages.js:225: the foreign key `parentMessageId`. */
  lemma PlanMessagesParent(clause: string)
    requires clause == "messages.parentMessage"
    ensures PlanClause(clause) == ClausePlan([], ParamObject(["parentMessageId"], -1))
  {
    MessageForeignKeys();
    PlanMessagesForeignKey("parentMessage", clause);
  }

  /** Planning the first n + 1 clauses is planning the first n, then clause n. */
  lemma PlanClausesStep(clauses: seq<string>, n: nat)
    requires n < |clauses|
    ensures PlanClauses(clauses[..n + 1])
            == Plan(PlanClauses(clauses[..n]).errors + PlanClause(clauses[n]).errors,
                    PlanClauses(clauses[..n]).objs + [PlanClause(clauses[n]).obj])
  {
    assert clauses[..n + 1][..n] == clauses[..n];
  }

  /** Clauses planned without error and whose depths agree give exactly their rules and depths. */
  lemma PlannedClean(clauses: seq<string>, objs: seq<ParamObject>, depth: map<string, int>)
    requires PlanClauses(clauses) == Plan([], objs)
    requires ConfirmDepths(objs) == DepthCheck(depth, [])
    ensures PlannedQuery(clauses) == PlannedExpand([], ExpandQuery(RulesOf(objs), depth))
  {
  }

  /** Only the first clause has a positive depth, so Message gets depth 1 and nothing conflicts. */
  lemma ScenarioDepths(objs: seq<ParamObject>)
    requires objs == [ParamObject(["Message"], 1), ParamObject(["discussionId"], -1), ParamObject(["parentMessageId"], -1)]
    ensures ConfirmDepths(objs) == DepthCheck(map["Message" := 1], [])
    ensures RulesOf(objs) == [["Message"], ["discussionId"], ["parentMessageId"]]
  {
    assert objs[..2][..1] == objs[..1] && objs[..1][..0] == [] && objs[..3] == objs;
    assert ConfirmDepths(objs[..1]) == DepthCheck(map["Message" := 1], []);
    assert ConfirmDepths(objs[..2]) == DepthCheck(map["Message" := 1], []);
  }

  /** A single clause is planned as that clause alone. */
  lemma PlanClausesSingle(clause: string)
    ensures PlanClauses([clause]) == Plan(PlanClause(clause).errors, [PlanClause(clause).obj])
  {
    assert [clause][..0] == [];
  }

  /** One clause rooted at Message with depth 1 records that depth and nothing conflicts. */
  lemma SingleMessageDepth(objs: seq<ParamObject>)
    requires objs == [ParamObject(["Message"], 1)]
    ensures ConfirmDepths(objs) == DepthCheck(map["Message" := 1], [])
    ensures RulesOf(objs) == [["Message"]]
  {
    assert objs[..0] == [];
  }

  /** With the corrected reading, `?expand=messages` is the one clause `messages` and validates. */
  lemma StringExpandIsOneClause(text: string)
    requires text == "messages"
    ensures Clauses(Single(text)) == [text]
    ensures PlannedQuery(Clauses(Single(text)))
            == PlannedExpand([], ExpandQuery([["Message"]], map["Message" := 1]))
  {
    var objs := [ParamObject(["Message"], 1)];
    PlanMessages(text);
    PlanClausesSingle(text);
    SingleMessageDepth(objs);
    PlannedClean([text], objs, map["Message" := 1]);
  }

  // ---------------------------------------------------------------------------
  // _confirmDepth on a plain JavaScript object, as written

  /** The properties every object inherits from `Object.prototype` whose values are functions. */
  const InheritedMethods: set<string> :=
    {"constructor", "hasOwnProperty", "isPrototypeOf", "propertyIsEnumerable", "toLocaleString",
     "toString", "valueOf", "__defineGetter__", "__defineSetter__", "__lookupGetter__", "__lookupSetter__"}

  /**
   * The `depth` object of `_confirmDepth` with the state its lookups reach
   * through the prototype chain: its own entries (each holding a recorded
   * depth), the `depth` property of `Object.prototype`, and the `depth`
   * properties of the inherited method objects. The last two are shared by
   * every object of the process and outlive the call.
   */
  datatype JsDepths = JsDepths(own: map<string, int>, protoDepth: Option<int>, methodDepth: map<string, int>)

  /** The shared state of a process in which nothing has been written through a prototype. */
  const Pristine := JsDepths(map[], None, map[])

  /** What `depth[key]` denotes. */
  datatype Slot = OwnEntry | PrototypeObject | InheritedMethod | InheritedNumber | Absent

  function SlotOf(js: JsDepths, key: string): Slot {
    if key in js.own then OwnEntry
    else if key == "__proto__" then PrototypeObject
    else if key in InheritedMethods then InheritedMethod
    else if key == "depth" && js.protoDepth.Some? then InheritedNumber
    else Absent
  }

  /** `depth[key].depth` read along the prototype chain; None when it is missing or null. */
  function CurrentDepth(js: JsDepths, key: string): Option<int> {
    match SlotOf(js, key)
    case OwnEntry => Some(js.own[key])
    case PrototypeObject => js.protoDepth
    case InheritedMethod => if key in js.methodDepth then Some(js.methodDepth[key]) else js.protoDepth
    case InheritedNumber => js.protoDepth
    case Absent => None
  }

  /** `model.depth = d`: on `Object.prototype`, on an inherited method object, or on a new own entry. */
  function StoreDepth(js: JsDepths, key: string, d: int): JsDepths {
    match SlotOf(js, key)
    case PrototypeObject => js.(protoDepth := Some(d))
    case InheritedMethod => js.(methodDepth := js.methodDepth[key := d])
    case _ => js.(own := js.own[key := d])
  }

  datatype JsDepthCheck = JsDepthCheck(js: JsDepths, errors: seq<ExpandError>)

  /** One clause of `_confirmDepth` on the JavaScript object. */
  function JsDepthStep(acc: JsDepthCheck, o: ParamObject): JsDepthCheck {
    if o.depth <= 0 then acc
    else
      var key := RootKey(o.rules);
      match CurrentDepth(acc.js, key)
      case None => JsDepthCheck(StoreDepth(acc.js, key, o.depth), acc.errors)
      case Some(d) => if d != o.depth then JsDepthCheck(acc.js, acc.errors + [DepthConflict(key)]) else acc
  }

  /** `_confirmDepth` as written: a fresh `{}` over the shared state `shared` earlier calls left behind. */
  function ConfirmDepthsAsWritten(shared: JsDepths, objs: seq<ParamObject>): JsDepthCheck
    decreases |objs|
  {
    if objs == [] then JsDepthCheck(shared.(own := map[]), [])
    else JsDepthStep(ConfirmDepthsAsWritten(shared, objs[..|objs| - 1]), objs[|objs| - 1])
  }

  /** A root the object looks up as its own entry or not at all. */
  predicate OrdinaryKey(key: string) {
    key != "__proto__" && key !in InheritedMethods && key != "depth"
  }

  /**
   * While no root is named like an inherited property, the object behaves as
   * the dictionary `ConfirmDepths` keeps: its own entries are the recorded
   * depths, the errors are the same, and the shared state is untouched.
   */
  lemma {:induction false} ConfirmDepthsAsWrittenAgrees(shared: JsDepths, objs: seq<ParamObject>)
    requires forall i :: 0 <= i < |objs| ==> OrdinaryKey(RootKey(objs[i].rules))
    ensures ConfirmDepthsAsWritten(shared, objs)
            == JsDepthCheck(shared.(own := ConfirmDepths(objs).depth), ConfirmDepths(objs).errors)
    decreases |objs|
  {
    if objs != [] {
      var n := |objs| - 1;
      assert forall i :: 0 <= i < n ==> objs[..n][i] == objs[i];
      ConfirmDepthsAsWrittenAgrees(shared, objs[..n]);
    }
  }

  /** A one-segment clause that is no plural alias fails at its root and keeps its segment, with depth 1. */
  lemma PlanUnknownRoot(a: string)
    requires a != [] && '.' !in a && !IsSpace(a[0]) && !IsSpace(a[|a| - 1])
    requires IsModel(a).None?
    ensures PlanClause(a) == ClausePlan([UnknownRoot], ParamObject([a], 1))
  {
    TrimOfTrimmed(a);
    IndexOfIsFirst(a, '.');
    assert SplitClause(a) == [a];
    ValidatedUnfold([a], 0);
    AssembledSingle(a);
  }

  /** `a.a` without spaces at its ends splits into the two segments `a`. */
  lemma RepeatedSegments(a: string, clause: string)
    requires clause == a + ['.'] + a
    requires a != [] && '.' !in a && !IsSpace(a[0]) && !IsSpace(a[|a| - 1])
    ensures !EndsWithDot(Trim(clause)) && SplitClause(Trim(clause)) == [a, a]
  {
    assert clause[0] == a[0] && clause[|clause| - 1] == a[|a| - 1];
    TrimOfTrimmed(clause);
    IndexOfAfterPrefix(a, a, '.');
    IndexOfIsFirst(a, '.');
    assert SplitClause(a) == [a];
    assert clause[..|a|] == a && clause[|a| + 1..] == a;
    assert SplitClause(clause) == [a, a];
  }

  /** `a.a`, with `a` no plural alias, fails at its root and keeps both segments, which give depth 2. */
  lemma PlanRepeatedUnknownRoot(a: string, clause: string)
    requires clause == a + ['.'] + a
    requires a != [] && '.' !in a && !IsSpace(a[0]) && !IsSpace(a[|a| - 1])
    requires IsModel(a).None?
    ensures PlanClause(clause) == ClausePlan([UnknownRoot], ParamObject([a, a], 2))
  {
    RepeatedSegments(a, clause);
    ValidatedUnfold([a, a], 0);
    assert FirstDiff([a, a]) == 2;
  }

  /** `__proto__` is no plural alias: one segment, depth 1. */
  lemma PlanProtoClause(clause: string)
    requires clause == "__proto__"
    ensures PlanClause(clause) == ClausePlan([UnknownRoot], ParamObject(["__proto__"], 1))
  {
    assert '.' !in clause by {
      assert forall k :: 0 <= k < |clause| ==> clause[k] in "_proto";
    }
    PlanUnknownRoot(clause);
  }

  /** `toString` is no plural alias: two segments, depth 2. */
  lemma PlanToStringClause(clause: string)
    requires clause == "toString.toString"
    ensures PlanClause(clause) == ClausePlan([UnknownRoot], ParamObject(["toString", "toString"], 2))
  {
    var a := "toString";
    assert '.' !in a by {
      assert forall k :: 0 <= k < |a| ==> a[k] in "toSring";
    }
    assert clause == a + ['.'] + a;
    PlanRepeatedUnknownRoot(a, clause);
  }

  /** `__proto__` and `toString.toString` plan to the objects of two unknown roots. */
  lemma PlanProtoRoots(clauses: seq<string>)
    requires clauses == ["__proto__", "toString.toString"]
    ensures PlanClauses(clauses).objs == [ParamObject(["__proto__"], 1), ParamObject(["toString", "toString"], 2)]
  {
    PlanProtoClause(clauses[0]);
    PlanToStringClause(clauses[1]);
    PlanTwoClauses(clauses[0], clauses[1]);
  }

  /** Two clauses plan to their two objects, in order. */
  lemma PlanTwoClauses(c0: string, c1: string)
    ensures PlanClauses([c0, c1]).objs == [PlanClause(c0).obj, PlanClause(c1).obj]
  {
    var both := [c0, c1];
    assert both[..1] == [c0];
    PlanClausesSingle(c0);
    assert PlanClauses(both).objs == PlanClauses([c0]).objs + [PlanClause(c1).obj];
  }

  /**
   * On the objects of `__proto__` (depth 1) and `toString.toString` (depth
   * 2), the object as written reports a depth conflict between the two
   * different roots and leaves `depth` set on `Object.prototype`; kept apart,
   * as the dictionary intends, the two roots do not conflict.
   */
  lemma ProtoRootsAsWrittenConflict(objs: seq<ParamObject>)
    requires objs == [ParamObject(["__proto__"], 1), ParamObject(["toString", "toString"], 2)]
    ensures ConfirmDepthsAsWritten(Pristine, objs)
            == JsDepthCheck(JsDepths(map[], Some(1), map[]), [DepthConflict("toString")])
    ensures ConfirmDepths(objs) == DepthCheck(map["__proto__" := 1, "toString" := 2], [])
  {
    var first := objs[..1];
    assert first == [objs[0]] && first[..0] == [];
    assert ConfirmDepthsAsWritten(Pristine, []) == JsDepthCheck(Pristine, []);
    assert SlotOf(Pristine, "__proto__") == PrototypeObject;
    var left := JsDepths(map[], Some(1), map[]);
    assert ConfirmDepthsAsWritten(Pristine, first) == JsDepthCheck(left, []);
    assert "toString" in InheritedMethods;
    assert SlotOf(left, "toString") == InheritedMethod;
    assert CurrentDepth(left, "toString") == Some(1);
    assert ConfirmDepths(first) == DepthCheck(map["__proto__" := 1], []);
  }

  /** The request `expand[]=__proto__&expand[]=toString.toString`, end to end through `_confirmDepth`. */
  lemma ProtoRootsRequest(clauses: seq<string>)
    requires clauses == ["__proto__", "toString.toString"]
    ensures ConfirmDepthsAsWritten(Pristine, PlanClauses(clauses).objs).errors == [DepthConflict("toString")]
    ensures ConfirmDepthsAsWritten(Pristine, PlanClauses(clauses).objs).js.protoDepth == Some(1)
    ensures ConfirmDepths(PlanClauses(clauses).objs).errors == []
  {
    PlanProtoRoots(clauses);
    ProtoRootsAsWrittenConflict(PlanClauses(clauses).objs);
  }

  /**
   * A later request in the same process: the depth an earlier request left on
   * `Object.prototype` now conflicts with a lone `__proto__` clause, and with
   * a clause rooted at `depth`, which every object now inherits.
   */
  lemma PrototypeDepthOutlivesRequest(left: JsDepths)
    requires left == JsDepths(map[], Some(1), map[])
    ensures ConfirmDepthsAsWritten(left, [ParamObject(["__proto__"], 2)]).errors == [DepthConflict("__proto__")]
    ensures ConfirmDepthsAsWritten(left, [ParamObject(["depth"], 2)]).errors == [DepthConflict("depth")]
    ensures ConfirmDepths([ParamObject(["__proto__"], 2)]).errors == []
    ensures ConfirmDepths([ParamObject(["depth"], 2)]).errors == []
  {
    assert [ParamObject(["__proto__"], 2)][..0] == [];
    assert [ParamObject(["depth"], 2)][..0] == [];
  }

  // ---------------------------------------------------------------------------
  // expandObject, first-position check

  /** The first rule of a clause is a HasMany association or an attribute of the root model. */
  predicate FirstRuleAllowed(model: Model, rules: seq<string>) {
    HasManyOf(model, RootKey(rules)) || HasKey(model, RootKey(rules))
  }

  /** The index of the last clause whose first rule the root model does not allow, or -1. */
  function LastDisallowedAt(model: Model, params: seq<seq<string>>): (k: int)
    ensures -1 <= k < |params|
    ensures k >= 0 ==> !FirstRuleAllowed(model, params[k])
    decreases |params|
  {
    if params == [] then -1
    else
      var n := |params| - 1;
      if !FirstRuleAllowed(model, params[n]) then n
      else
        var k := LastDisallowedAt(model, params[..n]);
        assert k >= 0 ==> params[..n][k] == params[k];
        k
  }

  /** Every clause after the one found has an allowed first rule. */
  lemma {:induction false} LastDisallowedAtIsLast(model: Model, params: seq<seq<string>>)
    ensures forall j :: LastDisallowedAt(model, params) < j < |params| ==> FirstRuleAllowed(model, params[j])
    decreases |params|
  {
    if params != [] {
      var n := |params| - 1;
      if FirstRuleAllowed(model, params[n]) {
        var front := params[..n];
        LastDisallowedAtIsLast(model, front);
        forall j | LastDisallowedAt(model, params) < j < |params| ensures FirstRuleAllowed(model, params[j]) {
          if j < n {
            assert front[j] == params[j];
          }
        }
      }
    }
  }

  /** The first rule of the last clause whose first rule the root model does not allow. */
  function LastDisallowed(model: Model, params: seq<seq<string>>): Option<string> {
    var k := LastDisallowedAt(model, params);
    if k < 0 then None else Some(RootKey(params[k]))
  }

  /**
   * Nothing is found exactly when every clause's first rule is allowed; what
   * is found is the first rule of a disallowed clause after which every
   * clause is allowed.
   */
  lemma LastDisallowedSpec(model: Model, params: seq<seq<string>>)
    ensures LastDisallowed(model, params).None? <==> forall i :: 0 <= i < |params| ==> FirstRuleAllowed(model, params[i])
    ensures LastDisallowed(model, params).Some? ==>
              var k := LastDisallowedAt(model, params);
              && 0 <= k < |params| && !FirstRuleAllowed(model, params[k])
              && LastDisallowed(model, params).value == RootKey(params[k])
              && forall j :: k < j < |params| ==> FirstRuleAllowed(model, params[j])
  {
    LastDisallowedAtIsLast(model, params);
  }

  /** `expandObject` goes past its guard: there is content, an expand plan and no error yet. */
  predicate ExpandProceeds(data: Option<Payload>, expandQuery: Option<ExpandQuery>, error: Option<ReqError>) {
    data.Some? && data.value.content.Some? && expandQuery.Some? && error.None?
  }

  function FirstPositionMessage(rule: string): string {
    rule + " is not allowed in the first position of expand parameter."
  }

  /**
   * The check `expandObject` makes before it traverses: without content, an
   * expand plan, or with an error already, nothing happens; otherwise a clause
   * whose first rule the root model does not allow is reported (the last such
   * one) and no traversal starts. `traverse` says whether it would start.
   */
  method ExpandObject(model: Model, req: Request) returns (traverse: bool)
    modifies req`error
    ensures !ExpandProceeds(req.data, req.expandQuery, old(req.error)) ==> !traverse && req.error == old(req.error)
    ensures ExpandProceeds(req.data, req.expandQuery, old(req.error)) ==>
              var bad := LastDisallowed(model, req.expandQuery.value.params);
              && (traverse <==> bad.None?)
              && (bad.None? ==> req.error == old(req.error))
              && (bad.Some? ==> req.error == Some(WithValidationError(None, FirstPositionMessage(bad.value))))
  {
    if req.data.None? || req.data.value.content.None? || req.expandQuery.None? || req.error.Some? {
      return false;
    }
    var modelHasAllTheFirstModel := true;
    var notHasMany := "";
    var params := req.expandQuery.value.params;
    for i := 0 to |params|
      invariant modelHasAllTheFirstModel <==> LastDisallowed(model, params[..i]).None?
      invariant !modelHasAllTheFirstModel ==> notHasMany == LastDisallowed(model, params[..i]).value
    {
      assert params[..i + 1][..i] == params[..i];
      if !HasManyOf(model, RootKey(params[i])) && !HasKey(model, RootKey(params[i])) {
        modelHasAllTheFirstModel := false;
        notHasMany := RootKey(params[i]);
      }
    }
    assert params[..|params|] == params;
    if modelHasAllTheFirstModel {
      // the recursive traversal starts here; it is not part of this model
      traverse := true;
    } else {
      AddValidationError(req, FirstPositionMessage(notHasMany));
      traverse := false;
    }
  }
}

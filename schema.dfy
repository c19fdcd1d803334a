/**
 * The static schema registry that stands in for the ORM's data source and
 * for `pluralize`: every model with its plural alias, its attribute names and
 * its association keys with their kinds, as declared in api/models/message.js
 * and api/models/discussion.js. Also the lookups of lib/expandHelper.js that
 * consult it: `_isModel`, `_isTerm`, `_hasKey`, `_hasMany`, `_isForeignKey`.
 */
module Schema {
  import opened Wrappers

  datatype AssociationType = HasManyKind | BelongsToKind

  /** The models the data source defines. */
  datatype Model = Discussion | Message

  /** The key the data source stores the model under. */
  function Name(m: Model): string {
    match m
    case Discussion => "Discussion"
    case Message => "Message"
  }

  /** `pluralize(key.toLowerCase())`: the alias an expand clause uses for the model. */
  function Plural(m: Model): string {
    match m
    case Discussion => "discussions"
    case Message => "messages"
  }

  /** The keys of `rawAttributes`. */
  function Attributes(m: Model): set<string> {
    match m
    case Discussion => {"discussionId", "remoteObjectName", "remoteObjectId", "createdBy", "updatedBy"}
    case Message => {"id", "discussionId", "content", "parentMessageId", "createdBy", "updatedBy"}
  }

  /** What the query-parameter parsers read from a model object: its `name` and the keys of its `rawAttributes`. */
  datatype ModelInfo = ModelInfo(name: string, attributes: set<string>)

  function Info(m: Model): ModelInfo {
    ModelInfo(Name(m), Attributes(m))
  }

  /**
   * `associations`, by key: a Message belongs to a Discussion and has many
   * Messages under the key `Message`; a Discussion has many Messages under
   * the key `messages`.
   */
  function Associations(m: Model): map<string, AssociationType> {
    match m
    case Discussion => map["messages" := HasManyKind]
    case Message => map["Discussion" := BelongsToKind, "Message" := HasManyKind]
  }

  /** The data source's models, in the order its keys are enumerated. */
  const Registry: seq<Model> := [Discussion, Message]

  predicate IsModelName(name: string) {
    name == "Discussion" || name == "Message"
  }

  /** `dataSource.getDataSource()[name]`. */
  function Find(name: string): (m: Option<Model>)
    ensures m.Some? <==> IsModelName(name)
    ensures m.Some? ==> Name(m.value) == name
  {
    if name == "Discussion" then Some(Discussion)
    else if name == "Message" then Some(Message)
    else None
  }

  /** The index of the last model in `models` whose plural alias is `sub`, or -1. */
  function LastWithPluralAt(models: seq<Model>, sub: string): (k: int)
    ensures -1 <= k < |models|
    ensures k >= 0 ==> Plural(models[k]) == sub
    decreases |models|
  {
    if |models| == 0 then -1
    else
      var n := |models| - 1;
      if Plural(models[n]) == sub then n
      else
        var k := LastWithPluralAt(models[..n], sub);
        assert k >= 0 ==> models[..n][k] == models[k];
        k
  }

  /** No model after the one found has the alias. */
  lemma {:induction false} LastWithPluralAtIsLast(models: seq<Model>, sub: string)
    ensures forall j :: LastWithPluralAt(models, sub) < j < |models| ==> Plural(models[j]) != sub
    decreases |models|
  {
    if |models| > 0 {
      var n := |models| - 1;
      if Plural(models[n]) != sub {
        var front := models[..n];
        LastWithPluralAtIsLast(front, sub);
        forall j | LastWithPluralAt(models, sub) < j < |models| ensures Plural(models[j]) != sub {
          if j < n {
            assert front[j] == models[j];
          }
        }
      }
    }
  }

  /** The name of the last model in `models` whose plural alias is `sub`. */
  function LastWithPlural(models: seq<Model>, sub: string): Option<string> {
    var k := LastWithPluralAt(models, sub);
    if k < 0 then None else Some(Name(models[k]))
  }

  /**
   * The search finds a name exactly when some model has the alias, and the
   * name found is that of a model with the alias after which no model has it.
   */
  lemma LastWithPluralSpec(models: seq<Model>, sub: string)
    ensures LastWithPlural(models, sub).Some? <==> exists k :: 0 <= k < |models| && Plural(models[k]) == sub
    ensures LastWithPlural(models, sub).Some? ==>
              var k := LastWithPluralAt(models, sub);
              && 0 <= k < |models| && Plural(models[k]) == sub
              && Name(models[k]) == LastWithPlural(models, sub).value
              && forall j :: k < j < |models| ==> Plural(models[j]) != sub
  {
    LastWithPluralAtIsLast(models, sub);
  }

  /**
   * `_isModel`: the name of the model whose plural alias is `sub`; here
   * `discussions` names Discussion, `messages` names Message, and nothing
   * else names a model.
   */
  function IsModel(sub: string): (r: Option<string>)
    ensures r.Some? <==> sub == "discussions" || sub == "messages"
    ensures r.Some? ==> Find(r.value).Some? && Plural(Find(r.value).value) == sub
  {
    assert Registry[..1] == [Discussion] && [Discussion][..0] == [];
    LastWithPlural(Registry, sub)
  }

  /** `_isTerm`: the only reserved term is `all`. */
  function IsTerm(sub: string): (r: Option<string>)
    ensures r.Some? <==> sub == "all"
    ensures r.Some? ==> r.value == sub
  {
    if sub == "all" then Some("all") else None
  }

  /** `_hasKey`: `column` is one of the model's attributes. */
  predicate HasKey(m: Model, column: string) {
    column in Attributes(m)
  }

  /** `_hasMany` on a model object: its association keyed `b` is a HasMany. */
  predicate HasManyOf(m: Model, b: string) {
    b in Associations(m) && Associations(m)[b] == HasManyKind
  }

  /** `_hasMany` on a model name: false when no model has that name. */
  predicate HasMany(a: string, b: string) {
    match Find(a)
    case None => false
    case Some(m) => HasManyOf(m, b)
  }

  /** `_isForeignKey`: `sub + "Id"` when that is an attribute of the model named `modelName`. */
  function IsForeignKey(sub: string, modelName: string): (r: Option<string>)
    ensures r.Some? ==> r.value == sub + "Id" && IsModelName(modelName)
                        && HasKey(Find(modelName).value, r.value)
    ensures r.None? ==> Find(modelName).None? || !HasKey(Find(modelName).value, sub + "Id")
  {
    match Find(modelName)
    case None => None
    case Some(m) => if HasKey(m, sub + "Id") then Some(sub + "Id") else None
  }

  /** No model name collides with a reserved term or with a foreign-key token. */
  lemma ReservedAreNotModels(sub: string)
    ensures !IsModelName("all") && !IsModelName("")
    ensures !IsModelName(sub + "Id") && sub + "Id" != "all"
  {
    var t := sub + "Id";
    assert t[|t| - 1] == 'd';
  }
}

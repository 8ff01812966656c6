/**
  The relational queries the AI core reads and writes: the default model and
  prompt, a user's model configuration, and the conversation history. Tables
  are sequences of rows in the order the database yields them; identifiers
  are natural numbers, instants are integers on one time line, and decimal
  prices are integer cents that are only ever copied.
*/
module AiStore {
  import opened Util
  import opened Seqs

  type Id = nat
  type Instant = int

  /** The `consumer` category of a model, a prompt or a transaction. */
  datatype Consumer = FastChat | Telegram | Other(name: string)

  datatype AIModel = AIModel(
    id: Id, titleModel: string, isDefault: bool, consumer: Consumer,
    contextWindow: int, maxRequestToken: int, incomingPrice: int, outgoingPrice: int)

  datatype GPTPrompt = GPTPrompt(id: Id, title: string, enPromptText: string, isDefault: bool, consumer: Consumer)

  /** A user's model configuration; `modelId`/`promptId` are nullable. */
  datatype UserAIModel = UserAIModel(
    id: Id, userId: Option<Id>, modelId: Option<Id>, promptId: Option<Id>, timeStart: Instant)

  /** A stored question/answer exchange, with the table's columns. There is
      no user column: the row reaches its user only through its
      configuration. The answer is optional so that the history query's null
      test has something to exclude. */
  datatype AITransaction = AITransaction(
    id: Id, chatId: string,
    question: string, questionTokens: nat, questionTokenPrice: int,
    answer: Option<string>, answerTokens: nat, answerTokenPrice: int,
    consumer: Consumer, userAiModelId: Option<Id>, createdAt: Instant)

  /** One row of the history query: exactly the four projected columns. */
  datatype HistoryRow = HistoryRow(question: string, questionTokens: nat, answer: string, answerTokens: nat)

  /** The database errors the modelled queries raise. */
  datatype DbError =
    | MultipleResultsFound
    | Conflict(status: nat, detail: string)

  /** `result.scalars().one_or_none()`. */
  function OneOrNone<T>(rows: seq<T>): (r: Result<Option<T>, DbError>)
    ensures r == Ok(None) <==> rows == []
    ensures |rows| == 1 ==> r == Ok(Some(rows[0]))
    ensures r.Ok? && r.value.Some? ==> |rows| == 1
    ensures r.Err? <==> |rows| >= 2
  {
    if rows == [] then Ok(None)
    else if |rows| == 1 then Ok(Some(rows[0]))
    else Err(MultipleResultsFound)
  }

  predicate IsDefaultModel(m: AIModel) { m.isDefault }
  predicate IsDefaultPrompt(p: GPTPrompt) { p.isDefault }

  /** `AIModelsDAO.get_default`: the one model flagged default, none, or an
      error when several are flagged; the consumer category plays no part. */
  function DefaultModel(models: seq<AIModel>): (r: Result<Option<AIModel>, DbError>)
    ensures r == Ok(None) <==> forall k :: 0 <= k < |models| ==> !models[k].isDefault
    ensures r.Ok? && r.value.Some? ==> r.value.value in models && r.value.value.isDefault
    ensures r.Ok? && r.value.Some? ==>
      forall k :: 0 <= k < |models| && models[k].isDefault ==> models[k] == r.value.value
  {
    var defaults := Filter(models, IsDefaultModel);
    if defaults == [] then
      Ok(None)
    else
      assert defaults[0].isDefault;
      OneOrNone(defaults)
  }

  /** `GPTPromptDAO.get_default`: the same rule over the prompts. */
  function DefaultPrompt(prompts: seq<GPTPrompt>): (r: Result<Option<GPTPrompt>, DbError>)
    ensures r == Ok(None) <==> forall k :: 0 <= k < |prompts| ==> !prompts[k].isDefault
    ensures r.Ok? && r.value.Some? ==> r.value.value in prompts && r.value.value.isDefault
    ensures r.Ok? && r.value.Some? ==>
      forall k :: 0 <= k < |prompts| && prompts[k].isDefault ==> prompts[k] == r.value.value
  {
    var defaults := Filter(prompts, IsDefaultPrompt);
    if defaults == [] then
      Ok(None)
    else
      assert defaults[0].isDefault;
      OneOrNone(defaults)
  }

  /** Two flagged models make the lookup fail rather than pick one. */
  lemma TwoDefaultModelsFail(models: seq<AIModel>, i: int, j: int)
    requires 0 <= i < j < |models| && models[i].isDefault && models[j].isDefault
    ensures DefaultModel(models) == Err(MultipleResultsFound)
  {
    FilterTwo(models, IsDefaultModel, i, j);
  }

  /** The model with the given category, every other column unchanged. */
  function WithConsumer(m: AIModel, c: Consumer): AIModel {
    m.(consumer := c)
  }

  /** Re-categorising every model changes nothing in the default lookup but
      the category of the model found. */
  lemma {:induction false} DefaultModelIgnoresConsumer(models: seq<AIModel>, c: Consumer)
    ensures DefaultModel(Map(models, m => WithConsumer(m, c))).Err? <==> DefaultModel(models).Err?
    ensures DefaultModel(models) == Ok(None) <==> DefaultModel(Map(models, m => WithConsumer(m, c))) == Ok(None)
    ensures DefaultModel(models).Ok? && DefaultModel(models).value.Some? ==>
      DefaultModel(Map(models, m => WithConsumer(m, c))) == Ok(Some(WithConsumer(DefaultModel(models).value.value, c)))
  {
    var f := (m: AIModel) => WithConsumer(m, c);
    FilterMapConsumer(models, c);
    assert Filter(Map(models, f), IsDefaultModel) == Map(Filter(models, IsDefaultModel), f);
  }

  lemma {:induction false} FilterMapConsumer(models: seq<AIModel>, c: Consumer)
    ensures Filter(Map(models, m => WithConsumer(m, c)), IsDefaultModel)
         == Map(Filter(models, IsDefaultModel), m => WithConsumer(m, c))
  {
    var f := (m: AIModel) => WithConsumer(m, c);
    if models != [] {
      assert Map(models, f)[1..] == Map(models[1..], f);
      FilterMapConsumer(models[1..], c);
      if models[0].isDefault {
        assert Map([models[0]] + Filter(models[1..], IsDefaultModel), f)
            == [f(models[0])] + Map(Filter(models[1..], IsDefaultModel), f);
      }
    }
  }

  /** The configuration rows belonging to a user. */
  function ConfigsOf(configs: seq<UserAIModel>, userId: Id): seq<UserAIModel> {
    Filter(configs, (c: UserAIModel) => c.userId == Some(userId))
  }

  /** The `user_id` column is unique. */
  predicate UniqueUsers(configs: seq<UserAIModel>) {
    forall i, j :: 0 <= i < j < |configs| && configs[i].userId.Some? ==> configs[i].userId != configs[j].userId
  }

  /** No two configuration rows share an id (the primary key). */
  predicate UniqueIds(configs: seq<UserAIModel>) {
    forall i, j :: 0 <= i < j < |configs| ==> configs[i].id != configs[j].id
  }

  /** `get_active_model`: the configuration whose `user_id` is the user's,
      or none. */
  function ActiveModel(configs: seq<UserAIModel>, userId: Id): (r: Result<Option<UserAIModel>, DbError>)
    ensures r == Ok(None) <==> forall k :: 0 <= k < |configs| ==> configs[k].userId != Some(userId)
    ensures r.Ok? && r.value.Some? ==> r.value.value in configs && r.value.value.userId == Some(userId)
  {
    var mine := ConfigsOf(configs, userId);
    if mine == [] then
      Ok(None)
    else
      assert mine[0].userId == Some(userId);
      OneOrNone(mine)
  }

  /** With `user_id` unique the lookup never fails. */
  lemma {:induction false} UniqueUsersLookup(configs: seq<UserAIModel>, userId: Id)
    requires UniqueUsers(configs)
    ensures ActiveModel(configs, userId).Ok?
  {
    var mine := ConfigsOf(configs, userId);
    if |mine| >= 2 {
      FewMatches(configs, userId);
    }
  }

  lemma {:induction false} FewMatches(configs: seq<UserAIModel>, userId: Id)
    requires UniqueUsers(configs)
    ensures |ConfigsOf(configs, userId)| <= 1
  {
    if configs != [] {
      var tail := configs[1..];
      assert UniqueUsers(tail) by {
        forall i, j | 0 <= i < j < |tail| && tail[i].userId.Some?
          ensures tail[i].userId != tail[j].userId
        {
          assert tail[i] == configs[i + 1] && tail[j] == configs[j + 1];
        }
      }
      FewMatches(tail, userId);
      if configs[0].userId == Some(userId) {
        assert forall k :: 0 <= k < |tail| ==> tail[k].userId != Some(userId) by {
          forall k | 0 <= k < |tail| ensures tail[k].userId != Some(userId) {
            assert tail[k] == configs[k + 1];
          }
        }
        FilterNone(tail, (c: UserAIModel) => c.userId == Some(userId));
      }
    }
  }

  /** The id of an optional row. */
  function IdOf<T>(row: Option<T>, id: T -> Id): Option<Id> {
    if row.Some? then Some(id(row.value)) else None
  }

  /** `create_default`: a configuration for the user pointing at the current
      default model and prompt (no id where there is no default), stored with
      the database's time as window start. The insert fails with 409 when the
      user already has a configuration or the id is taken. */
  function CreateDefault(configs: seq<UserAIModel>, models: seq<AIModel>, prompts: seq<GPTPrompt>,
                         userId: Id, newId: Id, now: Instant): (r: Result<(seq<UserAIModel>, UserAIModel), DbError>)
    ensures r.Ok? ==> r.value.0 == configs + [r.value.1]
    ensures r.Ok? ==> r.value.1.userId == Some(userId) && r.value.1.id == newId && r.value.1.timeStart == now
    ensures r.Ok? ==> DefaultModel(models).Ok? && DefaultPrompt(prompts).Ok?
    ensures r.Ok? ==> r.value.1.modelId == IdOf(DefaultModel(models).value, (m: AIModel) => m.id)
    ensures r.Ok? ==> r.value.1.promptId == IdOf(DefaultPrompt(prompts).value, (p: GPTPrompt) => p.id)
    ensures DefaultModel(models).Ok? && DefaultPrompt(prompts).Ok? ==>
      (r.Err? <==> exists k :: 0 <= k < |configs| && (configs[k].userId == Some(userId) || configs[k].id == newId))
    ensures r.Err? && DefaultModel(models).Ok? && DefaultPrompt(prompts).Ok? ==> r.error == Conflict(409, ConflictDetail)
  {
    match (DefaultModel(models), DefaultPrompt(prompts))
    case (Err(e), _) => Err(e)
    case (_, Err(e)) => Err(e)
    case (Ok(model), Ok(prompt)) =>
      var row := UserAIModel(newId, Some(userId), IdOf(model, (m: AIModel) => m.id),
                             IdOf(prompt, (p: GPTPrompt) => p.id), now);
      if exists k :: 0 <= k < |configs| && (configs[k].userId == Some(userId) || configs[k].id == newId) then
        Err(Conflict(409, ConflictDetail))
      else Ok((configs + [row], row))
  }

  const ConflictDetail: string := "Resource already exists"

  /** Creating a configuration keeps both uniqueness constraints, and the
      lookup then finds exactly the new row. */
  lemma CreateThenLookup(configs: seq<UserAIModel>, models: seq<AIModel>, prompts: seq<GPTPrompt>,
                         userId: Id, newId: Id, now: Instant)
    requires UniqueUsers(configs) && UniqueIds(configs)
    requires CreateDefault(configs, models, prompts, userId, newId, now).Ok?
    ensures UniqueUsers(CreateDefault(configs, models, prompts, userId, newId, now).value.0)
    ensures UniqueIds(CreateDefault(configs, models, prompts, userId, newId, now).value.0)
    ensures ActiveModel(CreateDefault(configs, models, prompts, userId, newId, now).value.0, userId)
         == Ok(Some(CreateDefault(configs, models, prompts, userId, newId, now).value.1))
  {
    var out := CreateDefault(configs, models, prompts, userId, newId, now).value;
    var after := out.0;
    var row := out.1;
    assert after == configs + [row];
    assert forall k :: 0 <= k < |configs| ==> configs[k].userId != Some(userId) && configs[k].id != newId;
    assert forall k :: 0 <= k < |configs| ==> after[k] == configs[k];
    assert after[|configs|] == row;
    assert UniqueUsers(after);
    FilterAppend(configs, [row], (c: UserAIModel) => c.userId == Some(userId));
    FilterNone(configs, (c: UserAIModel) => c.userId == Some(userId));
    assert ConfigsOf(after, userId) == [row];
  }

  /** `get_history`'s filter: the configuration's rows created within the
      window, both ends included, that have an answer. */
  predicate InHistory(t: AITransaction, configId: Id, timeStart: Instant, now: Instant) {
    && t.userAiModelId == Some(configId)
    && timeStart <= t.createdAt <= now
    && t.answer.Some?
  }

  /** The projection onto the four selected columns. */
  function Project(t: AITransaction): HistoryRow
    requires t.answer.Some?
  {
    HistoryRow(t.question, t.questionTokens, t.answer.value, t.answerTokens)
  }

  /** `get_history`. The query has no `ORDER BY`, so the database may return
      the rows in any order; the model fixes one choice, the order in which
      the rows were stored. */
  function History(txs: seq<AITransaction>, configId: Id, timeStart: Instant, now: Instant): (r: seq<HistoryRow>)
    ensures forall k :: 0 <= k < |r| ==>
      exists t :: t in txs && InHistory(t, configId, timeStart, now) && Project(t) == r[k]
    ensures forall t :: t in txs && InHistory(t, configId, timeStart, now) ==> Project(t) in r
    ensures |r| <= |txs|
  {
    if txs == [] then []
    else
      var rest := History(txs[1..], configId, timeStart, now);
      assert forall t :: t in txs[1..] ==> t in txs;
      if InHistory(txs[0], configId, timeStart, now) then
        var r := [Project(txs[0])] + rest;
        assert forall k :: 1 <= k < |r| ==> r[k] == rest[k - 1];
        assert txs[0] in txs;
        r
      else rest
  }

  /** The history of a concatenation is the concatenation of the histories:
      under the model's choice of row order, rows stored later come later. */
  lemma {:induction false} HistoryAppend(xs: seq<AITransaction>, ys: seq<AITransaction>,
                                         configId: Id, timeStart: Instant, now: Instant)
    ensures History(xs + ys, configId, timeStart, now)
         == History(xs, configId, timeStart, now) + History(ys, configId, timeStart, now)
  {
    if xs == [] {
      assert xs + ys == ys;
    } else {
      assert (xs + ys)[0] == xs[0];
      assert (xs + ys)[1..] == xs[1..] + ys;
      HistoryAppend(xs[1..], ys, configId, timeStart, now);
    }
  }
}

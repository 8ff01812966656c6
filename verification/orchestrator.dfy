/**
  `BaseAIProvider.get_gpt_response`: one conversation request from start to
  finish. It resolves the user's model configuration, counts the tokens of
  the query and of the system prompt while registering the query in the
  in-flight guard, refuses a query that is too long, builds the prompt,
  calls the provider (streamed over the web socket when asked for and the
  chat id is a UUID, buffered otherwise), stores the exchange, and in every
  case releases the guard and stops the typing indicator. Any exception is
  raised again as the same class, its message extended with a traceback.

  The database, the guard store, the tokenizer, the markdown cleaner, the
  provider's behaviour, the clock and the fresh row ids are inputs.
*/
module BaseProvider {
  import opened Util
  import opened Seqs
  import opened PyStr
  import opened Errors
  import opened PyRepr
  import opened InFlightGuard
  import opened AiStore
  import opened Prompt
  import opened Provider

  /** The tables the request reads and writes. */
  datatype Db = Db(models: seq<AIModel>, prompts: seq<GPTPrompt>, configs: seq<UserAIModel>, txs: seq<AITransaction>)

  /** The constructor's arguments and the reply text set by the caller. The
      chat id is held in its printed form. */
  datatype Request = Request(
    query: string,
    user: Option<Id>,
    chatId: string,
    stream: bool,
    tgChat: bool,
    reply: Option<string>,
    consumer: Consumer)

  /** Everything the request depends on that the core does not compute: the
      request's start time, the time the exchange is stored, the ids the
      database assigns, the tokenizer, the markdown cleaner, what the
      provider does in either mode, and the text `traceback.format_exc()`
      would give. */
  datatype Env = Env(
    now: Instant,
    storedAt: Instant,
    newConfigId: Id,
    newTxId: Id,
    tok: Tokenizer,
    cl: Cleaner,
    buffered: ClientOutcome,
    streamed: StreamScript,
    formatExc: string)

  /** `model`, `assist_prompt`, `time_start` and `active_model` after
      `init_model_config`. */
  datatype Config = Config(model: Option<AIModel>, prompt: Option<GPTPrompt>, timeStart: Instant, active: Option<UserAIModel>)

  /** A nullable foreign key followed to its row. */
  function Lookup<T>(rows: seq<T>, id: Option<Id>, key: T -> Id): (r: Option<T>)
    ensures r.Some? ==> id == Some(key(r.value)) && r.value in rows
    ensures r.None? ==> id.None? || forall k :: 0 <= k < |rows| ==> key(rows[k]) != id.value
  {
    if id.None? || rows == [] then None
    else if key(rows[0]) == id.value then Some(rows[0])
    else Lookup(rows[1..], id, key)
  }

  /** The configuration a stored row points at. */
  function FromRow(db: Db, c: UserAIModel): Config {
    Config(Lookup(db.models, c.modelId, (m: AIModel) => m.id),
           Lookup(db.prompts, c.promptId, (p: GPTPrompt) => p.id),
           c.timeStart, Some(c))
  }

  const MultipleRowsText: string := "Multiple rows were found when one or none was required"

  /** A database error as the exception that reaches the request. */
  function DbFailure(e: DbError): (err: Error)
    ensures err.kind.Foreign? && err.logTraceback.None?
    ensures e.Conflict? <==> !TakesMessage(err.kind)
  {
    match e
    case MultipleResultsFound => Raise(Foreign("MultipleResultsFound"), MultipleRowsText)
    case Conflict(status, detail) => Raise(Foreign("HTTPException"), NatToString(status) + ": " + detail)
  }

  /** `init_model_config`: a user gets the stored configuration, created from
      the defaults on the first request; an anonymous request uses the
      default model and prompt with the window starting now and no stored
      configuration. Only the creation writes to the database. */
  function InitModelConfig(db: Db, user: Option<Id>, now: Instant, newId: Id): (r: Result<(Db, Config), Error>)
    ensures r.Ok? ==> r.value.0.models == db.models && r.value.0.prompts == db.prompts && r.value.0.txs == db.txs
    ensures r.Err? ==> r.error.kind.Foreign?
    ensures user.None? && r.Ok? ==>
      && r.value.0 == db
      && DefaultModel(db.models).Ok? && DefaultPrompt(db.prompts).Ok?
      && r.value.1 == Config(DefaultModel(db.models).value, DefaultPrompt(db.prompts).value, now, None)
    ensures user.None? ==> (r.Ok? <==> DefaultModel(db.models).Ok? && DefaultPrompt(db.prompts).Ok?)
    ensures user.Some? && r.Ok? ==>
      && r.value.1.active.Some?
      && r.value.1.active.value.userId == user
      && r.value.1.active.value in r.value.0.configs
      && r.value.1 == FromRow(r.value.0, r.value.1.active.value)
    ensures user.Some? && ActiveModel(db.configs, user.value).Ok? && ActiveModel(db.configs, user.value).value.Some? ==>
      r == Ok((db, FromRow(db, ActiveModel(db.configs, user.value).value.value)))
    ensures user.Some? && ActiveModel(db.configs, user.value) == Ok(None) && r.Ok? ==>
      && r.value.0.configs == db.configs + [r.value.1.active.value]
      && r.value.1.active.value.id == newId
      && r.value.1.timeStart == now
  {
    match user
    case None =>
      (match DefaultModel(db.models)
       case Err(e) => Err(DbFailure(e))
       case Ok(model) =>
         match DefaultPrompt(db.prompts)
         case Err(e) => Err(DbFailure(e))
         case Ok(prompt) => Ok((db, Config(model, prompt, now, None))))
    case Some(u) =>
      match ActiveModel(db.configs, u)
      case Err(e) => Err(DbFailure(e))
      case Ok(Some(c)) => Ok((db, FromRow(db, c)))
      case Ok(None) =>
        match CreateDefault(db.configs, db.models, db.prompts, u, newId, now)
        case Err(e) => Err(DbFailure(e))
        case Ok((configs, c)) =>
          var db' := db.(configs := configs);
          Ok((db', FromRow(db', c)))
  }

  /** A user seen before is served from the stored row and nothing is
      written; after a first request the row exists, so a second request
      with the same inputs reads it instead of creating another. */
  lemma SecondRequestReusesConfig(db: Db, u: Id, now: Instant, newId: Id, later: Instant, otherId: Id)
    requires UniqueUsers(db.configs) && UniqueIds(db.configs)
    requires InitModelConfig(db, Some(u), now, newId).Ok?
    ensures InitModelConfig(InitModelConfig(db, Some(u), now, newId).value.0, Some(u), later, otherId)
         == Ok(InitModelConfig(db, Some(u), now, newId).value)
  {
    var first := InitModelConfig(db, Some(u), now, newId).value;
    var db1 := first.0;
    UniqueUsersLookup(db.configs, u);
    match ActiveModel(db.configs, u)
    case Ok(Some(c)) =>
      assert db1 == db;
    case Ok(None) =>
      CreateThenLookup(db.configs, db.models, db.prompts, u, newId, now);
      var created := CreateDefault(db.configs, db.models, db.prompts, u, newId, now).value;
      assert db1.configs == created.0;
      assert ActiveModel(db1.configs, u) == Ok(Some(created.1));
  }

  /** The state the request leaves behind on its way to the provider: the
      database after configuration, the guard store, and whether this
      request registered its query. */
  datatype Stage = Stage(db: Db, guard: Store, acquired: bool)

  /** What the provider call needs: the model, the stored configuration and
      the built prompt. */
  datatype Prepared = Prepared(model: AIModel, active: Option<UserAIModel>, built: Built)

  const NoPromptText: string := "'NoneType' object has no attribute 'en_prompt_text'"
  const NoModelText: string := "'NoneType' object has no attribute 'title_model'"
  const LongQueryText: string := "Слишком большой текст запроса.\nПопробуйте сформулировать его короче."

  /** `num_tokens(query_text, 4)`. */
  function QueryTokens(req: Request, env: Env): nat {
    NumTokens(env.tok, req.query, 4)
  }

  /** `init_model_config` for this request. */
  function Resolved(req: Request, env: Env, db: Db): Result<(Db, Config), Error> {
    InitModelConfig(db, req.user, env.now, env.newConfigId)
  }

  /** Configuration succeeds and finds both a model and a prompt, so the
      request gets as far as the guard. */
  predicate ReachesGuard(req: Request, env: Env, db: Db) {
    && Resolved(req, env, db).Ok?
    && Resolved(req, env, db).value.1.prompt.Some?
    && Resolved(req, env, db).value.1.model.Some?
  }

  /** The model of a request that reaches the guard. */
  function ModelOf(req: Request, env: Env, db: Db): AIModel
    requires ReachesGuard(req, env, db)
  {
    Resolved(req, env, db).value.1.model.value
  }

  /** The body of the session block: configuration, the token counts with
      the guard check, the long-query check and the prompt. The prompt text
      is read before the counting starts, so a missing prompt fails before
      the guard is touched; a missing model is taken to fail before the
      guard check too. */
  function Prepare(req: Request, env: Env, db: Db, guard: Store): (r: (Stage, Result<Prepared, Error>))
    ensures r.0.db.txs == db.txs
    ensures r.0.acquired ==> Acquire(guard, req.chatId, req.query).Ok? && r.0.guard == Acquire(guard, req.chatId, req.query).value
    ensures !r.0.acquired ==> r.0.guard == guard
    ensures r.0.acquired <==> ReachesGuard(req, env, db) && req.query !in Range(guard, GuardKey(req.chatId))
    ensures !ReachesGuard(req, env, db) ==> r.1.Err? && r.1.error.kind.Foreign?
    ensures ReachesGuard(req, env, db) && req.query in Range(guard, GuardKey(req.chatId)) ==>
      r.1 == Err(Raise(InWork, InWorkMessage))
    ensures r.0.acquired ==> (r.1.Ok? <==> QueryTokens(req, env) <= ModelOf(req, env, db).maxRequestToken)
    ensures r.0.acquired && r.1.Err? ==> r.1 == Err(Raise(LongQuery, LongQueryText))
    ensures r.1.Ok? ==> r.0.acquired
    ensures r.1.Ok? ==> QueryTokens(req, env) <= r.1.value.model.maxRequestToken
    ensures r.1.Ok? ==>
      var m := r.1.value.built.messages;
      |m| >= 2 && m[0].role == System && m[|m| - 1] == Message(User, req.query)
  {
    match InitModelConfig(db, req.user, env.now, env.newConfigId)
    case Err(e) => (Stage(db, guard, false), Err(e))
    case Ok((db1, cfg)) =>
      if cfg.prompt.None? then (Stage(db1, guard, false), Err(Raise(Foreign("AttributeError"), NoPromptText)))
      else if cfg.model.None? then (Stage(db1, guard, false), Err(Raise(Foreign("AttributeError"), NoModelText)))
      else
        var model := cfg.model.value;
        var qt := QueryTokens(req, env);
        var st := NumTokens(env.tok, cfg.prompt.value.enPromptText, 7);
        match Acquire(guard, req.chatId, req.query)
        case Err(e) => (Stage(db1, guard, false), Err(e))
        case Ok(guard1) =>
          if qt > model.maxRequestToken then (Stage(db1, guard1, true), Err(Raise(LongQuery, LongQueryText)))
          else
            var input := PromptInput(cfg.prompt.value.enPromptText, IdOf(cfg.active, (c: UserAIModel) => c.id),
                                     db1.txs, cfg.timeStart, env.now, req.reply, req.query, qt, st,
                                     model.contextWindow);
            (Stage(db1, guard1, true), Ok(Prepared(model, cfg.active, GetPrompt(input, env.tok, env.cl))))
  }

  const NotUuidText: string := "chat_id is not a valid UUID"

  /** The provider call: the stream when asked for, provided the chat id is a
      UUID (otherwise `is_valid_uuid` raises `ValueError`), the buffered
      request otherwise. Only the stream sends anything. */
  function Dispatch(req: Request, env: Env, p: Prepared): (r: (seq<WireMessage>, Result<Answer, Error>))
    ensures r.0 != [] ==> req.stream && IsValidUuid(req.chatId)
    ensures !req.stream ==> r == ([], BufferedRequest(env.buffered))
    ensures req.stream && !IsValidUuid(req.chatId) ==> r == ([], Err(Raise(Foreign("ValueError"), NotUuidText)))
    ensures req.stream && IsValidUuid(req.chatId) ==>
      r == (StreamMessages(env.streamed), StreamAnswer(env.streamed, p.built.messages, env.tok))
  {
    if !req.stream then ([], BufferedRequest(env.buffered))
    else if !IsValidUuid(req.chatId) then ([], Err(Raise(Foreign("ValueError"), NotUuidText)))
    else (StreamMessages(env.streamed), StreamAnswer(env.streamed, p.built.messages, env.tok))
  }

  /** `create_history`: the exchange as stored, priced with the model's
      outgoing price for the question and incoming price for the answer,
      with the counts the provider call left behind. The `user_id` argument
      is not a field of the create schema, so it is dropped and the row keeps
      no user. */
  function Record(req: Request, env: Env, p: Prepared, a: Answer): (t: AITransaction)
    ensures t.question == req.query && t.answer == Some(a.text) && t.chatId == req.chatId
    ensures t.questionTokens == a.queryTokens && t.answerTokens == a.answerTokens
    ensures t.questionTokenPrice == p.model.outgoingPrice && t.answerTokenPrice == p.model.incomingPrice
    ensures t.consumer == req.consumer
    ensures t.userAiModelId == IdOf(p.active, (c: UserAIModel) => c.id)
  {
    AITransaction(env.newTxId, req.chatId, req.query, a.queryTokens, p.model.outgoingPrice,
                  Some(a.text), a.answerTokens, p.model.incomingPrice, req.consumer,
                  IdOf(p.active, (c: UserAIModel) => c.id), env.storedAt)
  }

  /** The `try` block up to the exception: the result, the database and
      guard store it leaves, whether the guard was taken, and what was sent
      over the web socket. */
  datatype Attempted = Attempted(result: Result<Answer, Error>, db: Db, guard: Store, acquired: bool, sent: seq<WireMessage>)

  function Attempt(req: Request, env: Env, db: Db, guard: Store): (r: Attempted)
    ensures r.acquired == Prepare(req, env, db, guard).0.acquired
    ensures r.guard == Prepare(req, env, db, guard).0.guard
    ensures r.result.Err? ==> r.db == Prepare(req, env, db, guard).0.db
    ensures r.result.Ok? ==>
      && Prepare(req, env, db, guard).1.Ok?
      && r.db == Prepare(req, env, db, guard).0.db.(txs := db.txs + [Record(req, env, Prepare(req, env, db, guard).1.value, r.result.value)])
    ensures r.result.Ok? ==> |r.db.txs| == |db.txs| + 1 && r.db.txs[..|db.txs|] == db.txs
    ensures r.result.Ok? ==> r.db.txs[|db.txs|].answer == Some(r.result.value.text)
    ensures r.result.Err? ==> r.db.txs == db.txs
    ensures r.sent != [] ==> req.stream && IsValidUuid(req.chatId)
    ensures Prepare(req, env, db, guard).1.Err? ==> r.sent == [] && r.result == Err(Prepare(req, env, db, guard).1.error)
  {
    var (stage, prepared) := Prepare(req, env, db, guard);
    match prepared
    case Err(e) => Attempted(Err(e), stage.db, stage.guard, stage.acquired, [])
    case Ok(p) =>
      var (sent, answer) := Dispatch(req, env, p);
      match answer
      case Err(e) => Attempted(Err(e), stage.db, stage.guard, stage.acquired, sent)
      case Ok(a) => Attempted(Ok(a), stage.db.(txs := stage.db.txs + [Record(req, env, p, a)]), stage.guard, stage.acquired, sent)
  }

  /** What the request leaves: its result, the database, the guard store,
      the messages sent over the web socket and whether the typing event was
      set. */
  datatype Outcome = Outcome(result: Result<Answer, Error>, db: Db, guard: Store, sent: seq<WireMessage>, eventSet: bool)

  /** The outcome after the `except` and `finally` clauses, with the guard
      released either unconditionally or only when this request took it. */
  function Finish(req: Request, env: Env, a: Attempted, releaseAlways: bool): (r: Outcome)
    ensures r.eventSet == req.tgChat
    ensures r.db == a.db && r.sent == a.sent
    ensures r.result.Ok? <==> a.result.Ok?
    ensures a.result.Ok? ==> r.result == a.result
    ensures a.result.Err? && TakesMessage(a.result.error.kind) ==>
      && r.result.error.kind == a.result.error.kind
      && r.result.error.message == "\n\n" + a.result.error.message + TracebackHeader + LastChars(env.formatExc, TracebackLimit)
      && |r.result.error.message| <= 2 + |a.result.error.message| + |TracebackHeader| + TracebackLimit
    ensures a.result.Err? && !TakesMessage(a.result.error.kind) ==>
      && r.result.error.kind == Foreign("ValueError")
      && EndsWith(r.result.error.message, NotValidStatus)
  {
    var result := if a.result.Ok? then a.result else Err(ExceptClause(a.result.error, env.formatExc));
    var released := if releaseAlways || a.acquired then Release(a.guard, req.chatId, req.query) else a.guard;
    Outcome(result, a.db, released, a.sent, req.tgChat)
  }

  /** `get_gpt_response` as written: the `finally` clause removes one
      occurrence of the query from the guard even when the request never
      registered it. */
  function GetGptResponse(req: Request, env: Env, db: Db, guard: Store): (r: Outcome)
    ensures r.eventSet == req.tgChat
    ensures r.result.Ok? ==> |r.db.txs| == |db.txs| + 1 && r.db.txs[..|db.txs|] == db.txs
    ensures r.result.Ok? ==> r.db.txs[|db.txs|].answer == Some(r.result.value.text)
    ensures r.result.Err? ==> r.db.txs == db.txs
    ensures r.sent != [] ==> req.stream && IsValidUuid(req.chatId)
    ensures r.guard == Release(Attempt(req, env, db, guard).guard, req.chatId, req.query)
  {
    Finish(req, env, Attempt(req, env, db, guard), true)
  }

  /** `get_gpt_response` with the release made conditional on this request
      having registered its query. */
  function GetGptResponseGuarded(req: Request, env: Env, db: Db, guard: Store): (r: Outcome)
    ensures r.eventSet == req.tgChat
    ensures r.result.Ok? ==> |r.db.txs| == |db.txs| + 1 && r.db.txs[..|db.txs|] == db.txs
    ensures r.result.Ok? ==> r.db.txs[|db.txs|].answer == Some(r.result.value.text)
    ensures r.result.Err? ==> r.db.txs == db.txs
    ensures r.sent != [] ==> req.stream && IsValidUuid(req.chatId)
    ensures NoEmptyLists(guard) ==> r.guard == guard
  {
    var a := Attempt(req, env, db, guard);
    GuardedReleaseRestores(req, env, db, guard);
    Finish(req, env, a, false)
  }

  /** A request that registered its query and a store without empty lists:
      both versions release exactly what was taken. */
  lemma AcquiredRequestRestoresGuard(req: Request, env: Env, db: Db, guard: Store)
    requires NoEmptyLists(guard)
    requires ReachesGuard(req, env, db) && req.query !in Range(guard, GuardKey(req.chatId))
    ensures GetGptResponse(req, env, db, guard).guard == guard
    ensures GetGptResponseGuarded(req, env, db, guard).guard == guard
  {
    AcquireThenRelease(guard, req.chatId, req.query);
  }

  /** A request whose text is already registered for the chat fails with
      `InWorkError`, sending and storing nothing. As written, its `finally`
      clause still removes one registration of the text, which belongs to
      the identical request still running; the guarded version leaves the
      store as it was. */
  lemma DuplicateReleasesOriginal(req: Request, env: Env, db: Db, guard: Store)
    requires ReachesGuard(req, env, db)
    requires req.query in Range(guard, GuardKey(req.chatId))
    ensures GetGptResponse(req, env, db, guard).result.Err?
    ensures GetGptResponse(req, env, db, guard).result.error.kind == InWork
    ensures GetGptResponse(req, env, db, guard).sent == []
    ensures GetGptResponse(req, env, db, guard).db.txs == db.txs
    ensures multiset(Range(GetGptResponse(req, env, db, guard).guard, GuardKey(req.chatId)))
         == multiset(Range(guard, GuardKey(req.chatId))) - multiset{req.query}
    ensures GetGptResponseGuarded(req, env, db, guard).guard == guard
  {
  }

  /** The store while one request for the text is running in the chat. */
  function Running(req: Request): Store {
    map[GuardKey(req.chatId) := [req.query]]
  }

  /** The consequence: while a request runs, an identical second one is
      refused, and after it a third identical one is accepted although the
      first has not finished. With the guarded release the third is refused
      too. */
  lemma DuplicateLetsThirdThrough(req: Request, env: Env, db: Db)
    requires ReachesGuard(req, env, db)
    ensures GetGptResponse(req, env, db, Running(req)).result.error.kind == InWork
    ensures Acquire(GetGptResponse(req, env, db, Running(req)).guard, req.chatId, req.query).Ok?
    ensures Acquire(GetGptResponseGuarded(req, env, db, Running(req)).guard, req.chatId, req.query).Err?
  {
    var key := GuardKey(req.chatId);
    assert Range(Running(req), key) == [req.query];
    DuplicateReleasesOriginal(req, env, db, Running(req));
    var after := GetGptResponse(req, env, db, Running(req)).guard;
    assert multiset(Range(after, key)) == multiset{};
    assert req.query !in Range(after, key);
  }

  /** A user without a configuration whose new row's id is already taken:
      `create_default` raises the 409 `HTTPException`, and re-raising it
      around a text fails in its constructor, so the request ends in
      `ValueError` with nothing sent or stored. */
  lemma ConflictBecomesValueError(req: Request, env: Env, db: Db, guard: Store)
    requires req.user.Some? && ActiveModel(db.configs, req.user.value) == Ok(None)
    requires DefaultModel(db.models).Ok? && DefaultPrompt(db.prompts).Ok?
    requires exists k :: 0 <= k < |db.configs| && db.configs[k].id == env.newConfigId
    ensures GetGptResponse(req, env, db, guard).result.Err?
    ensures GetGptResponse(req, env, db, guard).result.error.kind == Foreign("ValueError")
    ensures EndsWith(GetGptResponse(req, env, db, guard).result.error.message, NotValidStatus)
    ensures GetGptResponse(req, env, db, guard).sent == []
    ensures GetGptResponse(req, env, db, guard).db.txs == db.txs
  {
    var u := req.user.value;
    var created := CreateDefault(db.configs, db.models, db.prompts, u, env.newConfigId, env.now);
    assert created == Err(Conflict(409, ConflictDetail));
    assert Resolved(req, env, db) == Err(DbFailure(Conflict(409, ConflictDetail)));
  }

  /** A query longer than the model allows is refused with `LongQueryError`
      before the prompt is built: nothing is sent, nothing is stored, and
      the guard is released. */
  lemma LongQueryStopsEarly(req: Request, env: Env, db: Db, guard: Store)
    requires NoEmptyLists(guard)
    requires ReachesGuard(req, env, db) && req.query !in Range(guard, GuardKey(req.chatId))
    requires QueryTokens(req, env) > ModelOf(req, env, db).maxRequestToken
    ensures GetGptResponse(req, env, db, guard).result.Err?
    ensures GetGptResponse(req, env, db, guard).result.error.kind == LongQuery
    ensures GetGptResponse(req, env, db, guard).sent == []
    ensures GetGptResponse(req, env, db, guard).db.txs == db.txs
    ensures GetGptResponse(req, env, db, guard).guard == guard
  {
    AcquireThenRelease(guard, req.chatId, req.query);
  }

  /** A successful answer is the provider's: the buffered reply, or the
      completed stream whose last message carried the whole text. The
      stored row holds the counts that came with it. */
  lemma AnswerComesFromProvider(req: Request, env: Env, db: Db, guard: Store)
    requires GetGptResponse(req, env, db, guard).result.Ok?
    ensures !req.stream ==> BufferedRequest(env.buffered) == GetGptResponse(req, env, db, guard).result
    ensures req.stream ==> IsValidUuid(req.chatId) && env.streamed.failure.None?
    ensures req.stream ==> GetGptResponse(req, env, db, guard).result.value.text == Accumulated(env.streamed.deltas)
    ensures GetGptResponse(req, env, db, guard).db.txs[|db.txs|].questionTokens
         == GetGptResponse(req, env, db, guard).result.value.queryTokens
    ensures GetGptResponse(req, env, db, guard).db.txs[|db.txs|].questionTokenPrice
         == ModelOf(req, env, db).outgoingPrice
  {
    AttemptDispatches(req, env, db, guard);
  }

  /** A successful attempt passed preparation and returned what the
      provider call returned; the row it adds is priced with the model the
      configuration resolved. */
  lemma AttemptDispatches(req: Request, env: Env, db: Db, guard: Store)
    requires Attempt(req, env, db, guard).result.Ok?
    ensures Prepare(req, env, db, guard).1.Ok? && ReachesGuard(req, env, db)
    ensures Attempt(req, env, db, guard).result == Dispatch(req, env, Prepare(req, env, db, guard).1.value).1
    ensures Prepare(req, env, db, guard).1.value.model == ModelOf(req, env, db)
  {
  }

  lemma GuardedReleaseRestores(req: Request, env: Env, db: Db, guard: Store)
    ensures NoEmptyLists(guard) ==> Finish(req, env, Attempt(req, env, db, guard), false).guard == guard
  {
    if NoEmptyLists(guard) && Attempt(req, env, db, guard).acquired {
      AcquireThenRelease(guard, req.chatId, req.query);
    }
  }

  const UuidBraces: set<char> := {'{', '}'}

  predicate NotHyphen(c: char) {
    c != '-'
  }

  /** The hexadecimal digits the `UUID` constructor reads out of a string:
      `urn:` and `uuid:` removed, braces stripped, hyphens removed. */
  function UuidHex(s: string): (h: string)
    ensures |h| <= |s|
    ensures forall i :: 0 <= i < |h| ==> h[i] != '-'
  {
    var t := RemoveAll(RemoveAll(s, "urn:"), "uuid:");
    Filter(StripRightOf(StripLeftOf(t, UuidBraces), UuidBraces), NotHyphen)
  }

  predicate IsHexDigit(c: char) {
    '0' <= c <= '9' || 'a' <= c <= 'f' || 'A' <= c <= 'F'
  }

  /** `is_valid_uuid(chat_id)`: `UUID(str(chat_id))` accepts the string,
      that is, exactly 32 hexadecimal digits remain. */
  predicate IsValidUuid(s: string) {
    |UuidHex(s)| == 32 && forall i :: 0 <= i < |UuidHex(s)| ==> IsHexDigit(UuidHex(s)[i])
  }

  /** A Telegram chat id in decimal is far shorter than 32 characters, so a
      streamed request from Telegram is refused. */
  lemma ShortIdIsNotUuid(s: string)
    requires |s| < 32
    ensures !IsValidUuid(s)
  {
  }

  predicate AllHex(s: string) {
    forall i :: 0 <= i < |s| ==> IsHexDigit(s[i])
  }

  /** The URN form `urn:uuid:...` reads the same digits as the bare text. */
  lemma UrnFormAccepted(h: string)
    ensures UuidHex("urn:uuid:" + h) == UuidHex(h)
    ensures IsValidUuid("urn:uuid:" + h) <==> IsValidUuid(h)
  {
    UrnPrefixRemoved(h);
  }

  /** The canonical printed form `8-4-4-4-12` of a UUID, as `str(UUID)`
      gives it for a web-socket chat id, is accepted. */
  lemma CanonicalUuidIsValid(a: string, b: string, c: string, d: string, e: string)
    requires |a| == 8 && |b| == 4 && |c| == 4 && |d| == 4 && |e| == 12
    requires AllHex(a) && AllHex(b) && AllHex(c) && AllHex(d) && AllHex(e)
    ensures IsValidUuid(a + ("-" + (b + ("-" + (c + ("-" + (d + ("-" + e))))))))
  {
    var s := a + ("-" + (b + ("-" + (c + ("-" + (d + ("-" + e)))))));
    NoColon(a);
    NoColon(b);
    NoColon(c);
    NoColon(d);
    NoColon(e);
    assert ':' !in s;
    assert s[0] == a[0] && s[|s| - 1] == e[11];
    PlainUuidHex(s);
    HyphensDropped(a, b, c, d, e);
    HexConcat(d, e);
    HexConcat(c, d + e);
    HexConcat(b, c + (d + e));
    HexConcat(a, b + (c + (d + e)));
  }

  lemma HexConcat(x: string, y: string)
    requires AllHex(x) && AllHex(y)
    ensures AllHex(x + y)
  {
  }

  /** Without `:` and braces at the ends, only the hyphens go. */
  lemma PlainUuidHex(s: string)
    requires ':' !in s && s != [] && s[0] !in UuidBraces && s[|s| - 1] !in UuidBraces
    ensures UuidHex(s) == Filter(s, NotHyphen)
  {
    assert "urn:"[3] == ':' && "uuid:"[4] == ':';
    RemoveAllAbsent(s, "urn:");
    RemoveAllAbsent(s, "uuid:");
    assert StripLeftOf(s, UuidBraces) == s;
    assert StripRightOf(s, UuidBraces) == s;
  }

  lemma HyphensDropped(a: string, b: string, c: string, d: string, e: string)
    requires AllHex(a) && AllHex(b) && AllHex(c) && AllHex(d) && AllHex(e)
    ensures Filter(a + ("-" + (b + ("-" + (c + ("-" + (d + ("-" + e))))))), NotHyphen) == a + (b + (c + (d + e)))
  {
    var t4 := d + ("-" + e);
    var t3 := c + ("-" + t4);
    var t2 := b + ("-" + t3);
    HexKept(e);
    HexThenHyphen(d, e);
    HexThenHyphen(c, t4);
    HexThenHyphen(b, t3);
    HexThenHyphen(a, t2);
  }

  lemma NoColon(s: string)
    requires AllHex(s)
    ensures ':' !in s
  {
  }

  lemma HexThenHyphen(x: string, y: string)
    requires AllHex(x)
    ensures Filter(x + ("-" + y), NotHyphen) == x + Filter(y, NotHyphen)
  {
    FilterAppend(x, "-" + y, NotHyphen);
    FilterAll(x, NotHyphen);
    FilterAppend("-", y, NotHyphen);
    assert Filter("-", NotHyphen) == [];
  }

  lemma HexKept(s: string)
    requires AllHex(s)
    ensures Filter(s, NotHyphen) == s
  {
    FilterAll(s, NotHyphen);
  }
}

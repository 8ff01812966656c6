/**
  The OpenAI provider: one buffered request whose reply or failure is mapped
  onto the core's exceptions, and a streamed request that forwards the
  growing answer over the web socket. The client library's behaviour is an
  input: the outcome of the call, or the deltas of the stream and how it
  ended.
*/
module Provider {
  import opened Util
  import opened PyStr
  import opened Errors
  import opened Prompt

  /** How a client call failed: an HTTP status error, a connection error, or
      any other exception. */
  datatype Failure =
    | StatusFailure(detail: string)
    | ConnectionFailure(detail: string)
    | OtherFailure(detail: string)

  /** The completion object of a buffered call: the choices' message texts
      (a text may be null) and the usage counts, or an object without a
      `choices` attribute. */
  datatype Completion =
    | WithChoices(choices: seq<Option<string>>, completionTokens: nat, promptTokens: nat)
    | WithoutChoices(dump: string)

  datatype ClientOutcome = Returned(completion: Completion) | Failed(failure: Failure)

  /** The answer text with the counts that replace the request's. */
  datatype Answer = Answer(text: string, answerTokens: nat, queryTokens: nat)

  const BufferedStatusPrefix: string :=
    "`GetAnswerGPT`, ответ сервера был получен, но код состояния указывает на ошибку: "
  const BufferedConnectionPrefix: string := "`GetAnswerGPT`, проблемы соединения: "
  const BufferedUnhandledPrefix: string := "Необработанная ошибка в `GetAnswerGPT.httpx_request_to_openai()`: "
  const NoChoicesPrefix: string := "`GetAnswerGPT`, ответ не содержит полей 'choices':\n"
  const IndexErrorText: string := "list index out of range"
  const NoneStripText: string := "'NoneType' object has no attribute 'strip'"

  /** The exception class each kind of failure is reported as. */
  function FailureKind(f: Failure): ErrorKind {
    match f
    case StatusFailure(_) => OpenAIResponse
    case ConnectionFailure(_) => OpenAIConnection
    case OtherFailure(_) => Unhandled
  }

  /** The first choice's text can be read and stripped. */
  predicate Usable(c: Completion) {
    c.WithChoices? && |c.choices| > 0 && c.choices[0].Some?
  }

  /** `httpx_request`: a single attempt. A usable reply yields its stripped
      first text and the provider's usage counts; a status or connection
      error becomes the matching exception; everything else, the
      `ValueChoicesError` raised for a reply without `choices` included,
      lands in the generic handler and becomes `UnhandledError`. */
  function BufferedRequest(outcome: ClientOutcome): (r: Result<Answer, Error>)
    ensures r.Ok? <==> outcome.Returned? && Usable(outcome.completion)
    ensures r.Ok? ==>
      && r.value.text == Strip(outcome.completion.choices[0].value)
      && r.value.answerTokens == outcome.completion.completionTokens
      && r.value.queryTokens == outcome.completion.promptTokens
    ensures r.Err? && outcome.Failed? ==> r.error.kind == FailureKind(outcome.failure)
    ensures r.Err? && outcome.Returned? ==> r.error.kind == Unhandled
    ensures r.Err? ==> r.error.kind != ValueChoices && r.error.logTraceback == Some(true)
  {
    match outcome
    case Failed(StatusFailure(d)) => Err(Raise(OpenAIResponse, BufferedStatusPrefix + d))
    case Failed(ConnectionFailure(d)) => Err(Raise(OpenAIConnection, BufferedConnectionPrefix + d))
    case Failed(OtherFailure(d)) => Err(Raise(Unhandled, BufferedUnhandledPrefix + d))
    case Returned(WithoutChoices(dump)) =>
      var inner := Raise(ValueChoices, NoChoicesPrefix + dump);
      Err(Raise(Unhandled, BufferedUnhandledPrefix + inner.message))
    case Returned(WithChoices(choices, completionTokens, promptTokens)) =>
      if choices == [] then Err(Raise(Unhandled, BufferedUnhandledPrefix + IndexErrorText))
      else if choices[0].None? then Err(Raise(Unhandled, BufferedUnhandledPrefix + NoneStripText))
      else Ok(Answer(Strip(choices[0].value), completionTokens, promptTokens))
  }

  /** A reply without `choices` reaches the user as the generic text, with
      the `ValueChoicesError` text inside the `UnhandledError` message. */
  lemma MissingChoicesIsUnhandled(dump: string)
    ensures BufferedRequest(Returned(WithoutChoices(dump)))
         == Err(Raise(Unhandled, BufferedUnhandledPrefix + (NoChoicesPrefix + dump)))
    ensures UserText(BufferedRequest(Returned(WithoutChoices(dump))).error.kind) == GenericText
  {
  }

  /** One message sent over the web socket (the JSON object's fields). */
  datatype WireMessage = WireMessage(message: string, username: string, isStream: bool, isStart: bool, isEnd: bool)

  const Sender: string := "GPT"

  /** `send_chunk_to_websocket(chunk, is_start, is_end)`. */
  function Chunk(text: string, isStart: bool, isEnd: bool): WireMessage {
    WireMessage(text, Sender, true, isStart, isEnd)
  }

  /** A stream's deltas (a delta may be null) and, when it breaks off, the
      failure that ends it after those deltas. */
  datatype StreamScript = StreamScript(deltas: seq<Option<string>>, failure: Option<Failure>)

  /** `delta.content or ""`. */
  function DeltaText(d: Option<string>): string {
    if d.Some? then d.value else ""
  }

  /** The answer text after the given deltas. */
  function Accumulated(ds: seq<Option<string>>): string {
    if ds == [] then "" else Accumulated(ds[..|ds| - 1]) + DeltaText(ds[|ds| - 1])
  }

  /** The accumulated text only grows: an earlier message's text is a prefix
      of every later one's. */
  lemma {:induction false} AccumulatedGrows(ds: seq<Option<string>>, i: nat, j: nat)
    requires i <= j <= |ds|
    ensures StartsWith(Accumulated(ds[..j]), Accumulated(ds[..i]))
  {
    if i < j {
      AccumulatedGrows(ds, i, j - 1);
      assert ds[..j][..j - 1] == ds[..j - 1];
    }
  }

  /** The data message sent after delta `k`. */
  function DataMessage(ds: seq<Option<string>>, k: nat): WireMessage
    requires k < |ds|
  {
    Chunk(Accumulated(ds[..k + 1]), k == 0, false)
  }

  const StreamStatusPrefix: string :=
    "`WSAnswerChatGPT`, ответ сервера был получен, но код состояния указывает на ошибку: "
  const StreamConnectionPrefix: string := "`WSAnswerChatGPT`, проблемы соединения: "
  const StreamUnhandledPrefix: string := "Необработанная ошибка в `WSAnswerChatGPT.httpx_request_to_openai()`: "

  function StreamError(f: Failure): (e: Error)
    ensures e.kind == FailureKind(f)
  {
    match f
    case StatusFailure(d) => Raise(OpenAIResponse, StreamStatusPrefix + d)
    case ConnectionFailure(d) => Raise(OpenAIConnection, StreamConnectionPrefix + d)
    case OtherFailure(d) => Raise(Unhandled, StreamUnhandledPrefix + d)
  }

  /** The messages a stream sends: after each delta the whole answer so far,
      flagged as the start only the first time, and, when the stream
      completes, one empty message flagged as the end. */
  function StreamMessages(script: StreamScript): (sent: seq<WireMessage>)
    ensures |sent| == |script.deltas| + (if script.failure.None? then 1 else 0)
    ensures forall k :: 0 <= k < |script.deltas| ==> sent[k] == DataMessage(script.deltas, k)
    ensures forall k :: 0 <= k < |sent| ==> sent[k].username == Sender && sent[k].isStream
    ensures forall k :: 0 <= k < |sent| ==> (sent[k].isStart <==> k == 0 && |script.deltas| > 0)
    ensures forall k :: 0 <= k < |sent| ==> (sent[k].isEnd <==> k == |script.deltas|)
    ensures script.failure.None? ==> sent[|sent| - 1] == Chunk("", false, true)
  {
    var ds := script.deltas;
    seq(|ds|, k requires 0 <= k < |ds| => DataMessage(ds, k))
      + (if script.failure.None? then [Chunk("", false, true)] else [])
  }

  /** How a stream ends: a completed stream yields the accumulated answer,
      counted with 4 extra tokens, and the prompt's rendered text as the
      question count; a broken one raises the failure's exception. */
  function StreamAnswer(script: StreamScript, prompt: seq<Message>, tok: Tokenizer): (r: Result<Answer, Error>)
    ensures r.Ok? <==> script.failure.None?
    ensures r.Err? ==> r.error.kind == FailureKind(script.failure.value) && r.error.logTraceback == Some(true)
    ensures r.Ok? ==>
      var text := Accumulated(script.deltas);
      r.value == Answer(text, NumTokens(tok, text, 4), NumTokens(tok, PromptText(prompt), 0))
  {
    if script.failure.Some? then Err(StreamError(script.failure.value))
    else
      var text := Accumulated(script.deltas);
      Ok(Answer(text, NumTokens(tok, text, 4), NumTokens(tok, PromptText(prompt), 0)))
  }

  /** The stored answer of a completed, non-empty stream is exactly the text
      of the last data message the client received, and every data message
      the client saw is a prefix of it. */
  lemma StreamedAnswerIsLastMessage(script: StreamScript, prompt: seq<Message>, tok: Tokenizer)
    requires script.failure.None? && script.deltas != []
    ensures StreamAnswer(script, prompt, tok).value.text == StreamMessages(script)[|script.deltas| - 1].message
    ensures forall k :: 0 <= k < |script.deltas| ==>
      StartsWith(StreamAnswer(script, prompt, tok).value.text, StreamMessages(script)[k].message)
  {
    var ds := script.deltas;
    assert ds[..|ds|] == ds;
    forall k | 0 <= k < |ds|
      ensures StartsWith(Accumulated(ds), StreamMessages(script)[k].message)
    {
      AccumulatedGrows(ds, k + 1, |ds|);
    }
  }

  /** `stream_request`: the loop over the deltas with its `first_chunk`
      flag, producing exactly the messages and the outcome above. */
  method StreamRequest(script: StreamScript, prompt: seq<Message>, tok: Tokenizer)
    returns (sent: seq<WireMessage>, r: Result<Answer, Error>)
    ensures sent == StreamMessages(script)
    ensures r == StreamAnswer(script, prompt, tok)
  {
    var ds := script.deltas;
    var text := "";
    var first := true;
    sent := [];
    var i := 0;
    while i < |ds|
      invariant 0 <= i <= |ds|
      invariant text == Accumulated(ds[..i])
      invariant first <==> i == 0
      invariant |sent| == i
      invariant forall k :: 0 <= k < i ==> sent[k] == DataMessage(ds, k)
    {
      assert ds[..i + 1][..i] == ds[..i];
      text := text + DeltaText(ds[i]);
      sent := sent + [Chunk(text, first, false)];
      if first {
        first := false;
      }
      i := i + 1;
    }
    assert ds[..|ds|] == ds;
    if script.failure.Some? {
      r := Err(StreamError(script.failure.value));
    } else {
      sent := sent + [Chunk("", false, true)];
      r := Ok(Answer(text, NumTokens(tok, text, 4), NumTokens(tok, PromptText(prompt), 0)));
    }
  }
}

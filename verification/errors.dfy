/**
  The exceptions of the AI conversation core and `handle_exceptions`, which
  turns one of them into the text shown to the user, the exception's class
  and an optional traceback excerpt.
*/
module Errors {
  import opened Util
  import opened PyStr
  import opened PyRepr

  /** The class of a raised exception: the classes the core declares, and any
      other class (`ValueError`, `HTTPException`, ...) by name. */
  datatype ErrorKind =
    | LogTracebackBase
    | InWork
    | LongQuery
    | LowTokensBalance
    | Unhandled
    | OpenAIRequest
    | OpenAIResponse
    | OpenAIConnection
    | OpenAIJsonDecode
    | ValueChoices
    | Foreign(name: string)

  /** An exception object: its class, `str(err)`, and its `log_traceback`
      attribute, which only the core's own classes have. */
  datatype Error = Error(kind: ErrorKind, message: string, logTraceback: Option<bool>)

  /** The class derives from the core's `LogTracebackExceptionError`. */
  predicate InHierarchy(kind: ErrorKind) {
    !kind.Foreign?
  }

  /** The subclass relation among the core's classes (reflexive). */
  predicate SubclassOf(kind: ErrorKind, parent: ErrorKind) {
    || kind == parent
    || (parent == LogTracebackBase && InHierarchy(kind))
    || (parent == OpenAIRequest && kind in {OpenAIResponse, OpenAIConnection, OpenAIJsonDecode, ValueChoices})
  }

  const LongQueryDefault: string := "Слишком большой текст запроса. Попробуйте сформулировать его короче."
  const LowTokensDefault: string := "Недостаточно средств. Вы исчерпали свой лимит."

  /** `log_traceback` as each class's constructor sets it: the two quota
      errors pass `False`, the other core classes keep the default `True`,
      and foreign classes have no such attribute. */
  function TracebackFlag(kind: ErrorKind): Option<bool> {
    match kind
    case Foreign(_) => None
    case LongQuery => Some(false)
    case LowTokensBalance => Some(false)
    case _ => Some(true)
  }

  /** `kind(message)`: constructing an exception with one argument. */
  function Raise(kind: ErrorKind, message: string): (e: Error)
    ensures e.kind == kind && e.message == message
    ensures e.logTraceback.Some? <==> InHierarchy(kind)
    ensures e.logTraceback == Some(false) <==> kind in {LongQuery, LowTokensBalance}
  {
    Error(kind, message, TracebackFlag(kind))
  }

  /** `KeyError(key)` for a missing `str` key: its text is `repr(key)`. */
  function KeyErrorOf(key: string): (e: Error)
    ensures e.kind == Foreign("KeyError") && e.logTraceback.None?
    ensures ReadsAs(e.message, key)
  {
    ReprRoundTrip(key);
    Raise(Foreign("KeyError"), Repr(key))
  }

  /** `LongQueryError()` / `LowTokensBalanceError()` with no argument. */
  function RaiseDefault(kind: ErrorKind): (e: Error)
    requires kind in {LongQuery, LowTokensBalance}
    ensures e.kind == kind && e.logTraceback == Some(false)
    ensures e.message == (if kind == LongQuery then LongQueryDefault else LowTokensDefault)
  {
    Raise(kind, if kind == LongQuery then LongQueryDefault else LowTokensDefault)
  }

  const GenericText: string :=
    "Что-то пошло не так \U{1F937}\U{1F3FC}\nВозможно большой наплыв запросов, которые я не успеваю обрабатывать \U{1F92F}"
  const InWorkText: string := "Я ещё думаю над вашим вопросом."
  const ResponseText: string :=
    "Проблема в получении ответа от искусственного интеллекта. Вероятно, он временно недоступен."
  const ConnectionText: string :=
    "Проблема с подключением... Похоже, искусственный интеллект на мгновение отключился."

  /** The user-facing text table, looked up by the exact class; a class not
      in the table, a subclass of a listed one included, gets the generic
      text. */
  function UserText(kind: ErrorKind): string {
    match kind
    case InWork => InWorkText
    case LongQuery => LongQueryDefault
    case LowTokensBalance => LowTokensDefault
    case ValueChoices => GenericText
    case OpenAIResponse => ResponseText
    case OpenAIConnection => ConnectionText
    case OpenAIJsonDecode => GenericText
    case Unhandled => GenericText
    case _ => GenericText
  }

  /** Exactly five classes have a text of their own, and these texts are
      pairwise distinct, so the text identifies the class. */
  lemma UserTextTable(kind: ErrorKind)
    ensures UserText(kind) != GenericText <==> kind in {InWork, LongQuery, LowTokensBalance, OpenAIResponse, OpenAIConnection}
    ensures forall other: ErrorKind :: UserText(kind) != GenericText && UserText(other) == UserText(kind) ==> other == kind
  {
    assert |GenericText| == 92 && |InWorkText| == 31 && |LongQueryDefault| == 68;
    assert |LowTokensDefault| == 46 && |ResponseText| == 91 && |ConnectionText| == 83;
  }

  /** The lookup does not follow inheritance: a strict subclass of a listed
      class with no entry of its own, or the base of listed classes, gets the
      generic text. */
  lemma ParentClassesGetGenericText()
    ensures SubclassOf(OpenAIResponse, OpenAIRequest) && UserText(OpenAIRequest) == GenericText
    ensures SubclassOf(InWork, LogTracebackBase) && UserText(LogTracebackBase) == GenericText
  {
  }

  const TracebackHeader: string := "\n\nТрассировка:\n"
  const TracebackLimit: nat := 2048

  /** Python `s[-n:]` for `n > 0`: the last `n` characters, or all of `s`. */
  function LastChars(s: string, n: nat): (r: string)
    ensures |r| == (if |s| <= n then |s| else n)
    ensures EndsWith(s, r)
  {
    if |s| <= n then s else s[|s| - n..]
  }

  /** What `handle_exceptions` returns. */
  datatype Handled = Handled(text: string, kind: ErrorKind, traceback: string)

  /** `handle_exceptions(err, include_traceback)`, with `formatExc` standing
      for what `traceback.format_exc()` yields at the call. */
  function HandleExceptions(err: Error, includeTraceback: bool, formatExc: string): (r: Handled)
    ensures r.kind == err.kind
    ensures r.text == UserText(err.kind)
    ensures r.traceback != [] <==> includeTraceback || err.logTraceback == Some(true)
    ensures r.traceback != [] ==>
      && StartsWith(r.traceback, TracebackHeader)
      && |r.traceback| <= |TracebackHeader| + TracebackLimit
      && EndsWith(formatExc, r.traceback[|TracebackHeader|..])
    ensures r.traceback != [] ==> r.traceback == TracebackHeader + LastChars(formatExc, TracebackLimit)
  {
    var attach := includeTraceback || (err.logTraceback.Some? && err.logTraceback.value);
    var tb := if attach then TracebackHeader + LastChars(formatExc, TracebackLimit) else "";
    assert attach ==> tb[|TracebackHeader|..] == LastChars(formatExc, TracebackLimit);
    Handled(UserText(err.kind), err.kind, tb)
  }

  /** The class accepts a message as its only argument. `HTTPException`
      takes its first argument as the status code; given a text, it looks
      the text up as an `HTTPStatus`, which raises `ValueError`. */
  predicate TakesMessage(kind: ErrorKind) {
    kind != Foreign("HTTPException")
  }

  const NotValidStatus: string := " is not a valid HTTPStatus"

  /** The `ValueError` that `HTTPStatus(text)` raises for a text: the
      text's `repr` followed by " is not a valid HTTPStatus". The quoted
      part reads back as exactly the text. */
  function StatusRejected(text: string): (e: Error)
    ensures e.kind == Foreign("ValueError") && e.logTraceback.None?
    ensures |e.message| >= 2 + |NotValidStatus| && EndsWith(e.message, NotValidStatus)
    ensures Unescape(e.message[1..|e.message| - |NotValidStatus| - 1], e.message[0]) == Some(text)
  {
    var v := Repr(text) + NotValidStatus;
    ReprRoundTrip(text);
    assert v[1..|v| - |NotValidStatus| - 1] == Repr(text)[1..|Repr(text)| - 1];
    assert v[|v| - |NotValidStatus|..] == NotValidStatus;
    Raise(Foreign("ValueError"), v)
  }

  /** `raise type_err(f'\n\n{str(err)}{traceback_str}')`: the same class
      rebuilt around the old message with the traceback appended. For
      `HTTPException` the constructor fails instead, and what propagates is
      the `ValueError` naming the rejected status text. */
  function Reraise(err: Error, traceback: string): (e: Error)
    ensures TakesMessage(err.kind) ==> e.kind == err.kind
    ensures TakesMessage(err.kind) && err.logTraceback == TracebackFlag(err.kind) ==> e.logTraceback == err.logTraceback
    ensures TakesMessage(err.kind) ==>
      && |e.message| == 2 + |err.message| + |traceback|
      && StartsWith(e.message, "\n\n") && EndsWith(e.message, traceback)
      && e.message[2..|e.message| - |traceback|] == err.message
    ensures !TakesMessage(err.kind) ==> e == StatusRejected("\n\n" + err.message + traceback)
  {
    var m := "\n\n" + err.message + traceback;
    if TakesMessage(err.kind) then
      assert m[..2] == "\n\n";
      assert m[|m| - |traceback|..] == traceback;
      assert m[2..|m| - |traceback|] == err.message;
      Raise(err.kind, m)
    else
      StatusRejected(m)
  }

  /** The `except` clause of `get_gpt_response`: `handle_exceptions(err,
      True)` always yields a traceback, and the exception is re-raised
      around the old message after two newlines, then the traceback header
      and the last 2048 characters of the formatted traceback. An
      `HTTPException` turns into the `ValueError` its constructor raises on
      that text. */
  function ExceptClause(e: Error, formatExc: string): (r: Error)
    ensures TakesMessage(e.kind) ==>
      && r.kind == e.kind
      && r.message == "\n\n" + e.message + TracebackHeader + LastChars(formatExc, TracebackLimit)
      && |r.message| <= 2 + |e.message| + |TracebackHeader| + TracebackLimit
    ensures !TakesMessage(e.kind) ==>
      r == StatusRejected("\n\n" + e.message + TracebackHeader + LastChars(formatExc, TracebackLimit))
  {
    var tb := HandleExceptions(e, true, formatExc).traceback;
    var tail := LastChars(formatExc, TracebackLimit);
    assert tb == TracebackHeader + tail;
    assert "\n\n" + e.message + tb == "\n\n" + e.message + TracebackHeader + tail;
    Reraise(e, tb)
  }
}

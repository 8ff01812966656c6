/**
  The web chat window (`ChatPopup`, in its TypeScript and JavaScript
  versions, whose message handling is the same). Each parsed web-socket
  message updates the list of shown entries; a streamed answer is one entry
  whose content the following messages replace. Connected to the stream
  the provider sends, the entry ends up holding the whole answer.
*/
module ChatPopup {
  import opened Util
  import opened PyStr
  import opened Provider

  /** One shown message: its text, whether it is typed `'other'` (from the
      assistant) rather than `'self'`, whether it came from a stream, and
      whether that stream is still running (absent, that is false, for a
      plain message). */
  datatype Entry = Entry(content: string, fromOther: bool, isStream: bool, isStreaming: bool)

  /** The last entry is a stream still receiving. */
  predicate OpenStream(entries: seq<Entry>) {
    entries != [] && entries[|entries| - 1].isStream && entries[|entries| - 1].isStreaming
  }

  /** The entry a new message starts. */
  function NewEntry(m: WireMessage): (e: Entry)
    ensures e.content == m.message && (e.fromOther <==> m.username == Sender)
    ensures e.isStream == m.isStream && e.isStreaming == m.isStream
  {
    Entry(m.message, m.username == Sender, m.isStream, m.isStream)
  }

  /** `onmessage`: a plain message or the start of a stream appends an
      entry; any other stream message updates the last entry when it is a
      stream still receiving, replacing the content unless the message is
      empty and ending the stream on `is_end`, and is ignored otherwise. */
  function OnMessage(entries: seq<Entry>, m: WireMessage): (r: seq<Entry>)
    ensures !m.isStream || m.isStart ==> r == entries + [NewEntry(m)]
    ensures m.isStream && !m.isStart && !OpenStream(entries) ==> r == entries
    ensures m.isStream && !m.isStart && OpenStream(entries) ==>
      && |r| == |entries| && r[..|r| - 1] == entries[..|entries| - 1]
      && r[|r| - 1].content == (if m.message != "" then m.message else entries[|entries| - 1].content)
      && (r[|r| - 1].isStreaming <==> !m.isEnd)
      && r[|r| - 1].isStream
      && r[|r| - 1].fromOther == entries[|entries| - 1].fromOther
  {
    if !m.isStream || m.isStart then entries + [NewEntry(m)]
    else if OpenStream(entries) then
      var last := entries[|entries| - 1];
      var updated := last.(content := if m.message != "" then m.message else last.content, isStreaming := !m.isEnd);
      entries[..|entries| - 1] + [updated]
    else entries
  }

  /** After an entry has received `is_end`, further stream messages that do
      not start a new stream change nothing. */
  lemma EndedStreamIgnoresMessages(entries: seq<Entry>, m: WireMessage, n: WireMessage)
    requires OpenStream(entries) && m.isStream && !m.isStart && m.isEnd
    requires n.isStream && !n.isStart
    ensures OnMessage(OnMessage(entries, m), n) == OnMessage(entries, m)
  {
  }

  /** The messages handled one after the other. */
  function Receive(entries: seq<Entry>, ms: seq<WireMessage>): seq<Entry> {
    if ms == [] then entries else OnMessage(Receive(entries, ms[..|ms| - 1]), ms[|ms| - 1])
  }

  /** The entry of a streamed answer showing `text`. */
  function Streamed(text: string, running: bool): Entry {
    Entry(text, true, true, running)
  }

  /** While the stream runs, the window shows one new entry holding the
      answer accumulated so far. An empty data message can only come while
      nothing has accumulated, so keeping the old content is right. */
  lemma {:induction false} StreamShownSoFar(entries: seq<Entry>, script: StreamScript, n: nat)
    requires 1 <= n <= |script.deltas|
    ensures Receive(entries, StreamMessages(script)[..n])
         == entries + [Streamed(Accumulated(script.deltas[..n]), true)]
  {
    var ds := script.deltas;
    var ms := StreamMessages(script);
    ReceiveLast(entries, ms, n);
    assert ms[n - 1] == DataMessage(ds, n - 1);
    if n == 1 {
      assert ms[..0] == [];
    } else {
      StreamShownSoFar(entries, script, n - 1);
      AccumulatedGrows(ds, n - 1, n);
      StreamStep(entries, Accumulated(ds[..n - 1]), Accumulated(ds[..n]));
    }
  }

  /** Handling the first `n` messages is handling the first `n - 1` and
      then the `n`-th. */
  lemma ReceiveLast(entries: seq<Entry>, ms: seq<WireMessage>, n: nat)
    requires 1 <= n <= |ms|
    ensures Receive(entries, ms[..n]) == OnMessage(Receive(entries, ms[..n - 1]), ms[n - 1])
  {
    var prefix := ms[..n];
    assert prefix[..n - 1] == ms[..n - 1];
    assert prefix[n - 1] == ms[n - 1];
  }

  /** One data message after the first: the entry now shows the longer
      text. */
  lemma StreamStep(entries: seq<Entry>, acc: string, acc': string)
    requires StartsWith(acc', acc)
    ensures OnMessage(entries + [Streamed(acc, true)], Chunk(acc', false, false)) == entries + [Streamed(acc', true)]
  {
    var before := entries + [Streamed(acc, true)];
    assert OpenStream(before);
    assert before[..|before| - 1] == entries;
  }

  /** A completed stream of at least one delta leaves exactly one new entry:
      the assistant's whole answer, no longer streaming. */
  lemma CompletedStreamShowsAnswer(entries: seq<Entry>, script: StreamScript)
    requires script.failure.None? && script.deltas != []
    ensures Receive(entries, StreamMessages(script))
         == entries + [Streamed(Accumulated(script.deltas), false)]
  {
    var ds := script.deltas;
    var ms := StreamMessages(script);
    StreamShownSoFar(entries, script, |ds|);
    assert ms[..|ms| - 1] == ms[..|ds|];
    assert ds[..|ds|] == ds;
    var before := entries + [Streamed(Accumulated(ds), true)];
    assert before[..|before| - 1] == entries;
  }

  /** A stream that breaks off after some deltas leaves its entry streaming
      for good, showing the text received up to the failure. */
  lemma BrokenStreamStaysOpen(entries: seq<Entry>, script: StreamScript)
    requires script.failure.Some? && script.deltas != []
    ensures Receive(entries, StreamMessages(script))
         == entries + [Streamed(Accumulated(script.deltas), true)]
  {
    var ds := script.deltas;
    var ms := StreamMessages(script);
    StreamShownSoFar(entries, script, |ds|);
    assert ms[..|ds|] == ms;
    assert ds[..|ds|] == ds;
  }

  /** A completed stream without deltas sends only the closing message,
      which shows nothing new. */
  lemma EmptyStreamShowsNothing(entries: seq<Entry>, script: StreamScript)
    requires script.failure.None? && script.deltas == [] && !OpenStream(entries)
    ensures Receive(entries, StreamMessages(script)) == entries
  {
    var ms := StreamMessages(script);
    assert ms[..|ms| - 1] == [];
  }

  /** The socket's `readyState`, or no socket yet. */
  datatype ReadyState = Connecting | Open | Closing | Closed

  /** The window after `sendMessage`: the entries, the input box, the texts
      sent (as `{text: ...}`), and whether a retry was scheduled. */
  datatype AfterSend = AfterSend(entries: seq<Entry>, input: string, sent: seq<string>, retry: bool)

  /** `sendMessage` in the TypeScript version: a blank input is ignored; on
      an open socket the input becomes a `'self'` entry, is sent and the
      box is cleared; while connecting a retry is scheduled; otherwise
      nothing happens. */
  function SendMessage(entries: seq<Entry>, input: string, socket: Option<ReadyState>): (r: AfterSend)
    ensures !JsTrimNonEmpty(input) || socket.None? ==> r == AfterSend(entries, input, [], false)
    ensures JsTrimNonEmpty(input) && socket == Some(Open) ==>
      r == AfterSend(entries + [Entry(input, false, false, false)], "", [input], false)
    ensures r.retry <==> JsTrimNonEmpty(input) && socket == Some(Connecting)
    ensures r.sent != [] <==> JsTrimNonEmpty(input) && socket == Some(Open)
    ensures r.sent == [] ==> r.entries == entries && r.input == input
  {
    if !JsTrimNonEmpty(input) || socket.None? then AfterSend(entries, input, [], false)
    else if socket.value == Open then AfterSend(entries + [Entry(input, false, false, false)], "", [input], false)
    else if socket.value == Connecting then AfterSend(entries, input, [], true)
    else AfterSend(entries, input, [], false)
  }

  /** `sendMessage` in the JavaScript version, which does not look at the
      socket's state. The entry is appended before `send` is called. With
      no socket yet (`null.send`) or one still connecting (`send` raises
      `InvalidStateError`) the handler stops there and the box keeps its
      text; a closing or closed socket discards the data without an error
      and the box is cleared. Only an open socket transmits. */
  function SendMessageUnchecked(entries: seq<Entry>, input: string, socket: Option<ReadyState>): (r: AfterSend)
    ensures !JsTrimNonEmpty(input) ==> r == AfterSend(entries, input, [], false)
    ensures JsTrimNonEmpty(input) ==> r.entries == entries + [Entry(input, false, false, false)]
    ensures !r.retry
    ensures r.sent != [] <==> JsTrimNonEmpty(input) && socket == Some(Open)
    ensures r.sent != [] ==> r.sent == [input]
    ensures JsTrimNonEmpty(input) ==>
      r.input == (if socket.Some? && socket.value != Connecting then "" else input)
  {
    if !JsTrimNonEmpty(input) then AfterSend(entries, input, [], false)
    else
      var shown := entries + [Entry(input, false, false, false)];
      if socket.None? || socket.value == Connecting then AfterSend(shown, input, [], false)
      else if socket.value == Open then AfterSend(shown, "", [input], false)
      else AfterSend(shown, "", [], false)
  }

  /** On an open socket both versions behave alike. */
  lemma VersionsAgreeWhenOpen(entries: seq<Entry>, input: string)
    ensures SendMessage(entries, input, Some(Open)) == SendMessageUnchecked(entries, input, Some(Open))
  {
  }

  /** On any other socket state a non-blank text is shown as sent by the
      JavaScript version although nothing was transmitted, while the
      TypeScript version leaves the window as it was. */
  lemma VersionsDifferWhenNotOpen(entries: seq<Entry>, input: string, socket: Option<ReadyState>)
    requires JsTrimNonEmpty(input) && socket != Some(Open)
    ensures SendMessageUnchecked(entries, input, socket).entries == entries + [Entry(input, false, false, false)]
    ensures SendMessageUnchecked(entries, input, socket).sent == []
    ensures SendMessage(entries, input, socket).entries == entries
    ensures SendMessage(entries, input, socket).sent == []
  {
  }

  /** A text sent while an answer is still streaming becomes the last entry,
      so the stream's remaining messages are dropped: the answer stops
      growing on screen and never leaves the streaming state. */
  lemma SendDuringStreamDropsUpdates(entries: seq<Entry>, input: string, m: WireMessage)
    requires OpenStream(entries) && JsTrimNonEmpty(input)
    requires m.isStream && !m.isStart
    ensures OnMessage(SendMessage(entries, input, Some(Open)).entries, m) == SendMessage(entries, input, Some(Open)).entries
  {
  }
}

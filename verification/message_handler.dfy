/**
  Telegram text utilities of the bot service: reading the byte offset out of
  a Telegram error description, deleting the character that sits at a UTF-8
  byte offset, fixed-width chunking, and the bounded retry loop that sends a
  reply. The Telegram Bot API is an oracle: a function from the call number,
  the text and the parse mode to what the API answered.
*/
module MessageHandler {
  import opened Util
  import opened PyStr
  import opened Utf8

  // ---------------------------------------------------------------------------
  // find_byte_offset
  // ---------------------------------------------------------------------------

  /** The literal part of the pattern `byte offset (\d+)`. */
  const Marker: string := "byte offset "

  /** The pattern matches at `i`: the marker followed by at least one digit. */
  predicate MatchAt(s: string, i: int) {
    OccursAt(s, Marker, i) && i + |Marker| < |s| && IsDigit(s[i + |Marker|])
  }

  /** The longest prefix of `s` made of digits: what the greedy `\d+` takes. */
  function DigitRun(s: string): (d: string)
    ensures |d| <= |s| && d == s[..|d|] && AllDigits(d)
    ensures |d| == |s| || !IsDigit(s[|d|])
  {
    if s == [] || !IsDigit(s[0]) then [] else [s[0]] + DigitRun(s[1..])
  }

  /** Leftmost match at or after `i`. */
  function FindFrom(s: string, i: nat): (r: Option<nat>)
    ensures r.None? <==> forall j :: i <= j ==> !MatchAt(s, j)
    ensures r.Some? ==> exists j :: i <= j && MatchAt(s, j)
                          && (forall k :: i <= k < j ==> !MatchAt(s, k))
                          && r.value == DigitsValue(DigitRun(s[j + |Marker|..]))
    decreases |s| - i
  {
    if i >= |s| then
      assert forall j :: i <= j ==> !MatchAt(s, j);
      None
    else if MatchAt(s, i) then Some(DigitsValue(DigitRun(s[i + |Marker|..])))
    else FindFrom(s, i + 1)
  }

  /** `find_byte_offset`: the number after the first `byte offset ` that is
      followed by a digit, or `None` when the description has no such part. */
  function FindByteOffset(message: string): (r: Option<nat>)
    ensures r.None? <==> forall j :: !MatchAt(message, j)
    ensures r.Some? ==> exists j :: MatchAt(message, j)
                          && (forall k :: 0 <= k < j ==> !MatchAt(message, k))
                          && r.value == DigitsValue(DigitRun(message[j + |Marker|..]))
  {
    var r := FindFrom(message, 0);
    assert forall j :: MatchAt(message, j) ==> 0 <= j;
    r
  }

  /** What Telegram prints, read back: a description that carries `n` after the
      marker (and no earlier match) yields `n`. */
  lemma FindByteOffsetReadsOffset(prefix: string, n: nat, suffix: string)
    requires forall j :: 0 <= j < |prefix| ==> !MatchAt(prefix + Marker + NatToString(n) + suffix, j)
    requires suffix == [] || !IsDigit(suffix[0])
    ensures FindByteOffset(prefix + Marker + NatToString(n) + suffix) == Some(n)
  {
    var digits := NatToString(n);
    var m := prefix + Marker + digits + suffix;
    MatchAfterPrefix(prefix, digits, suffix);
    FirstMatch(m, |prefix|);
    DigitRunOfDigits(digits, suffix);
    DigitsValueOfNatToString(n);
  }

  /** The marker placed after `prefix` and followed by digits is a match,
      and the text after the marker is what followed it. */
  lemma MatchAfterPrefix(prefix: string, digits: string, rest: string)
    requires digits != [] && AllDigits(digits)
    ensures MatchAt(prefix + Marker + digits + rest, |prefix|)
    ensures (prefix + Marker + digits + rest)[|prefix| + |Marker|..] == digits + rest
  {
    var m := prefix + Marker + digits + rest;
    assert m == prefix + (Marker + (digits + rest));
    assert m[|prefix|..] == Marker + (digits + rest);
    assert m[|prefix|..|prefix| + |Marker|] == Marker;
  }

  /** When `i` is a match and none comes before it, `find_byte_offset` reads
      the digits after the match at `i`. */
  lemma FirstMatch(m: string, i: nat)
    requires MatchAt(m, i) && forall k :: 0 <= k < i ==> !MatchAt(m, k)
    ensures FindByteOffset(m) == Some(DigitsValue(DigitRun(m[i + |Marker|..])))
  {
    FindFromReaches(m, 0, i);
  }

  /** The search from `i` passes over the positions before the first match
      `j` and reads the digits there. */
  lemma {:induction false} FindFromReaches(s: string, i: nat, j: nat)
    requires i <= j && MatchAt(s, j)
    requires forall k :: i <= k < j ==> !MatchAt(s, k)
    ensures FindFrom(s, i) == Some(DigitsValue(DigitRun(s[j + |Marker|..])))
    decreases j - i
  {
    if i < j {
      assert !MatchAt(s, i);
      FindFromReaches(s, i + 1, j);
    }
  }

  lemma {:induction false} DigitRunOfDigits(d: string, rest: string)
    requires AllDigits(d)
    requires rest == [] || !IsDigit(rest[0])
    ensures DigitRun(d + rest) == d
  {
    if d != [] {
      assert (d + rest)[1..] == d[1..] + rest;
      DigitRunOfDigits(d[1..], rest);
    } else {
      assert d + rest == rest;
    }
  }

  // ---------------------------------------------------------------------------
  // delete_at_byte_offset
  // ---------------------------------------------------------------------------

  /** The deletion the function is meant to perform: drop the one character
      whose UTF-8 encoding holds byte `offset`, or keep the text when the
      offset lies outside the encoding. */
  function DeleteChar(text: string, offset: int): string {
    if offset < 0 || offset >= |EncodeText(text)| then text
    else
      var i := CharAtByte(text, offset);
      text[..i] + text[i + 1..]
  }

  /** `bytes.decode('utf-8')` guarded by `except UnicodeDecodeError: return text`. */
  function DecodeOrKeep(bytes: seq<Byte>, fallback: string): string {
    match DecodeText(bytes)
    case Some(t) => t
    case None => fallback
  }

  /** `delete_at_byte_offset`: walks back from the offset over continuation
      bytes to the start of the character, forward to the start of the next
      one, cuts those bytes out and decodes the rest. The result is the text
      without exactly the character holding the offset, every other character
      kept in order; the decode-failure fallback is never taken. */
  method DeleteAtByteOffset(text: string, offset: int) returns (r: string)
    ensures offset < 0 || offset >= |EncodeText(text)| ==> r == text
    ensures 0 <= offset < |EncodeText(text)| ==>
      var i := CharAtByte(text, offset);
      ByteStart(text, i) <= offset < ByteStart(text, i + 1) && r == text[..i] + text[i + 1..]
    ensures r == DeleteChar(text, offset)
  {
    var bytes := EncodeText(text);
    if offset < 0 || offset >= |bytes| {
      return text;
    }
    ghost var i := CharAtByte(text, offset);
    ghost var lo := ByteStart(text, i);
    ghost var hi := ByteStart(text, i + 1);
    CharBoundaries(text, i);
    var start := offset;
    while start > 0 && IsContinuation(bytes[start])
      invariant lo <= start <= offset
      decreases start
    {
      start := start - 1;
    }
    var end := start + 1;
    while end < |bytes| && IsContinuation(bytes[end])
      invariant start + 1 <= end <= hi
      decreases |bytes| - end
    {
      end := end + 1;
    }
    assert start == lo;
    assert end == hi;
    var modified := bytes[..start] + bytes[end..];
    assert modified == EncodeText(text[..i] + text[i + 1..]);
    DecodeEncode(text[..i] + text[i + 1..]);
    r := DecodeOrKeep(modified, text);
    assert r == text[..i] + text[i + 1..];
  }

  /** Where the encoding of character `i` starts and ends, told by the
      continuation-byte test alone: its first byte is not a continuation byte,
      its other bytes are, and so is not the first byte of the next character.
      Cutting those bytes out leaves the encoding of the text without it. */
  lemma CharBoundaries(text: string, i: nat)
    requires i < |text|
    ensures var bytes := EncodeText(text);
            var lo := ByteStart(text, i);
            var hi := ByteStart(text, i + 1);
            && lo < hi <= |bytes|
            && !IsContinuation(bytes[lo])
            && (forall k :: lo < k < hi ==> IsContinuation(bytes[k]))
            && (hi < |bytes| ==> !IsContinuation(bytes[hi]))
            && bytes[..lo] + bytes[hi..] == EncodeText(text[..i] + text[i + 1..])
  {
    EncodeAround(text, i);
    CharBytes(EncodeText(text[..i]), EncodeChar(text[i]), EncodeText(text[i + 1..]), text[i + 1..]);
    EncodeTextAppend(text[..i], text[i + 1..]);
  }

  /** The byte-level view of `CharBoundaries`: `c` is one character's
      encoding between the encodings `pre` and `post` of other text. */
  lemma CharBytes(pre: seq<Byte>, c: seq<Byte>, post: seq<Byte>, rest: string)
    requires c != [] && !IsContinuation(c[0]) && forall k :: 1 <= k < |c| ==> IsContinuation(c[k])
    requires post == EncodeText(rest)
    ensures var bytes := pre + c + post;
            && !IsContinuation(bytes[|pre|])
            && (forall k :: |pre| < k < |pre| + |c| ==> IsContinuation(bytes[k]))
            && (|pre| + |c| < |bytes| ==> !IsContinuation(bytes[|pre| + |c|]))
            && bytes[..|pre|] + bytes[|pre| + |c|..] == pre + post
  {
    var bytes := pre + c + post;
    assert bytes[|pre|] == c[0];
    forall k | |pre| < k < |pre| + |c| ensures IsContinuation(bytes[k]) {
      assert bytes[k] == c[k - |pre|];
    }
    if post != [] {
      assert rest != [];
      assert post == EncodeChar(rest[0]) + EncodeText(rest[1..]);
      ContinuationRange(post[0]);
      assert bytes[|pre| + |c|] == post[0];
    }
    assert bytes[..|pre|] == pre;
    assert bytes[|pre| + |c|..] == post;
  }

  // ---------------------------------------------------------------------------
  // split_message
  // ---------------------------------------------------------------------------

  const DefaultMaxLength: nat := 4000

  function Concat(parts: seq<string>): string {
    if parts == [] then [] else parts[0] + Concat(parts[1..])
  }

  /** `split_message`: consecutive slices of `max_length` characters. The
      pieces put back together give the text, each is non-empty and at most
      `max_length` long, every piece but the last is exactly that long, and an
      empty text gives no piece. */
  function SplitMessage(text: string, maxLength: nat): (r: seq<string>)
    requires maxLength > 0
    ensures Concat(r) == text
    ensures forall k :: 0 <= k < |r| ==> 0 < |r[k]| <= maxLength
    ensures forall k :: 0 <= k < |r| - 1 ==> |r[k]| == maxLength
    ensures r == [] <==> text == []
    decreases |text|
  {
    if text == [] then []
    else if |text| <= maxLength then [text]
    else
      var rest := SplitMessage(text[maxLength..], maxLength);
      var r := [text[..maxLength]] + rest;
      assert r[1..] == rest;
      assert text == text[..maxLength] + text[maxLength..];
      r
  }

  // ---------------------------------------------------------------------------
  // send_message_to_chat
  // ---------------------------------------------------------------------------

  datatype ParseMode = Markdown | MarkdownV2 | Html

  /** What the Bot API answered to one `send_message` call. */
  datatype SendReply =
    | Delivered(messageId: int)
    | BadRequest(description: string)   // telegram.error.BadRequest
    | Failure(description: string)      // any other exception

  /** One call of the main `send_message`: its call number, the loop's
      countdown value at that call, the arguments, and what the API answered. */
  datatype Attempt = Attempt(call: nat, countdown: int, text: string, mode: Option<ParseMode>, reply: SendReply)

  /** What the loop did, attempt by attempt: no attempt at all (a negative
      retry count), a last attempt, or an attempt followed by the rest. */
  datatype Run = Idle | Done(at: Attempt) | Again(at: Attempt, next: Run)

  /** Messages sent besides the attempts: the pieces of a too-long message
      and the report to the admin chat. */
  datatype Outgoing = Piece(text: string) | AdminReport(description: string)

  /** The Bot API: the answer to the `n`-th main call with a text and mode. */
  type Bot = (nat, string, Option<ParseMode>) -> SendReply

  /** How the loop reacts to a BadRequest: whether its description reports a
      too-long message, the pieces then sent, and the text retried at a
      countdown above 1. The loop is stated over any such reaction;
      `SendMessageToChat` uses `Telegram`. */
  datatype Recovery = Recovery(
    tooLong: string -> bool,
    pieces: string -> seq<Outgoing>,
    repair: (string, string) -> string)

  const TooLong: string := "Message is too long"

  /** `"Message is too long" in str(e)`, `split_message(text)` sent piece by
      piece, and `delete_at_byte_offset(text, find_byte_offset(str(e)))`. */
  const Telegram: Recovery := Recovery(
    (d: string) => Contains(d, TooLong),
    (t: string) => AsPieces(SplitMessage(t, DefaultMaxLength)),
    Repaired)

  function AsPieces(parts: seq<string>): (r: seq<Outgoing>)
    ensures |r| == |parts|
    ensures forall k :: 0 <= k < |r| ==> r[k] == Piece(parts[k])
  {
    if parts == [] then [] else [Piece(parts[0])] + AsPieces(parts[1..])
  }

  /** The text of the attempt after a BadRequest at a countdown above 1: the
      character at the reported byte offset is deleted. */
  function Repaired(text: string, description: string): string {
    match FindByteOffset(description)
    case Some(off) => DeleteChar(text, off)
    case None => text
  }

  predicate TooLongRefusal(rec: Recovery, reply: SendReply) {
    reply.BadRequest? && rec.tooLong(reply.description)
  }

  /** What an attempt sends besides itself once it has its answer: the pieces
      after a too-long refusal, the admin report after another failure at
      countdown 0. */
  function SentAfter(rec: Recovery, at: Attempt): seq<Outgoing> {
    match at.reply
    case Delivered(_) => []
    case BadRequest(d) => if rec.tooLong(d) then rec.pieces(at.text) else []
    case Failure(d) => if at.countdown == 0 then [AdminReport(d)] else []
  }

  function First(run: Run): Attempt
    requires run != Idle
  {
    run.at
  }

  function Last(run: Run): Attempt
    requires run != Idle
  {
    match run
    case Done(at) => at
    case Again(_, next) => if next == Idle then run.at else Last(next)
  }

  function Length(run: Run): nat {
    match run
    case Idle => 0
    case Done(_) => 1
    case Again(_, next) => 1 + Length(next)
  }

  /** All that was sent besides the attempts, in order. */
  function Extra(rec: Recovery, run: Run): seq<Outgoing> {
    match run
    case Idle => []
    case Done(at) => SentAfter(rec, at)
    case Again(at, next) => SentAfter(rec, at) + Extra(rec, next)
  }

  /** What `send_message_to_chat` returns: the id of the delivered message. */
  function Outcome(run: Run): Option<int> {
    match run
    case Idle => None
    case Done(at) => if at.reply.Delivered? then Some(at.reply.messageId) else None
    case Again(_, next) => Outcome(next)
  }

  /** The attempt is call number `calls` at countdown `countdown` and holds
      the answer the API gave to its arguments. */
  predicate Drawn(at: Attempt, bot: Bot, calls: nat, countdown: int) {
    at.call == calls && at.countdown == countdown && at.reply == bot(calls, at.text, at.mode)
  }

  /** The arguments of the attempt after `prev`, formed from the answer `prev`
      drew: the original text without parse mode after a BadRequest at
      countdown 1 or 0, the repaired text after one above 1, the same
      arguments after any other failure. */
  predicate NextArguments(rec: Recovery, origin: string, prev: Attempt, next: Attempt) {
    match prev.reply
    case Delivered(_) => false
    case BadRequest(d) =>
      if prev.countdown <= 1 then next.text == origin && next.mode == None
      else next.text == rec.repair(prev.text, d) && next.mode == prev.mode
    case Failure(_) => next.text == prev.text && next.mode == prev.mode
  }

  /** The loop ends after this attempt: it was delivered, the countdown is
      spent, or (with the early stop) it drew a too-long refusal. */
  predicate EndsLoop(rec: Recovery, stop: bool, at: Attempt) {
    at.reply.Delivered? || at.countdown <= 0 || (stop && TooLongRefusal(rec, at.reply))
  }

  /** The declarative description of the loop from call `calls` and
      countdown `countdown` on, with first arguments `text` and `mode`:
      every attempt is drawn from the API, the loop goes on exactly while
      `EndsLoop` does not hold, and each attempt's arguments follow from its
      predecessor's answer. */
  predicate Follows(rec: Recovery, stop: bool, origin: string, text: string, mode: Option<ParseMode>,
                    bot: Bot, calls: nat, countdown: int, run: Run)
    decreases run
  {
    match run
    case Idle => countdown < 0
    case Done(at) =>
      && countdown >= 0 && at.text == text && at.mode == mode
      && Drawn(at, bot, calls, countdown) && EndsLoop(rec, stop, at)
    case Again(at, next) =>
      && countdown >= 0 && at.text == text && at.mode == mode
      && Drawn(at, bot, calls, countdown) && !EndsLoop(rec, stop, at)
      && next != Idle && NextArguments(rec, origin, at, next.at)
      && Follows(rec, stop, origin, next.at.text, next.at.mode, bot, calls + 1, countdown - 1, next)
  }

  /** The loop `for attempt in range(retry_count, -1, -1)` from the countdown
      value `countdown` on; `calls` main calls were made before. With `stop`
      the loop ends once the pieces of a too-long message have been sent (the
      corrected behaviour, see the finding in README). */
  function SendLoop(rec: Recovery, stop: bool, origin: string, text: string, mode: Option<ParseMode>,
                    bot: Bot, calls: nat, countdown: int): (run: Run)
    ensures Follows(rec, stop, origin, text, mode, bot, calls, countdown, run)
    ensures Length(run) <= (if countdown < 0 then 0 else countdown + 1)
    decreases if countdown < 0 then 0 else countdown + 1
  {
    if countdown < 0 then Idle
    else
      var at := Attempt(calls, countdown, text, mode, bot(calls, text, mode));
      if EndsLoop(rec, stop, at) then Done(at)
      else
        var next :=
          match at.reply
          case BadRequest(d) =>
            if countdown <= 1 then SendLoop(rec, stop, origin, origin, None, bot, calls + 1, countdown - 1)
            else SendLoop(rec, stop, origin, rec.repair(text, d), mode, bot, calls + 1, countdown - 1)
          case Failure(_) => SendLoop(rec, stop, origin, text, mode, bot, calls + 1, countdown - 1)
          case Delivered(_) => Idle;
        Again(at, next)
  }

  /** The description pins the run down: at most one run follows it. */
  lemma {:induction false} FollowsUnique(rec: Recovery, stop: bool, origin: string, text: string,
                                         mode: Option<ParseMode>, bot: Bot, calls: nat, countdown: int,
                                         r1: Run, r2: Run)
    requires Follows(rec, stop, origin, text, mode, bot, calls, countdown, r1)
    requires Follows(rec, stop, origin, text, mode, bot, calls, countdown, r2)
    ensures r1 == r2
    decreases r1
  {
    match r1
    case Idle =>
    case Done(at) =>
    case Again(at, next) =>
      var next2 := r2.next;
      assert next.at.text == next2.at.text && next.at.mode == next2.at.mode;
      FollowsUnique(rec, stop, origin, next.at.text, next.at.mode, bot, calls + 1, countdown - 1, next, next2);
  }

  /** Without the early stop, a loop that delivered nothing used every
      countdown value. */
  lemma {:induction false} ExhaustsCountdown(rec: Recovery, origin: string, text: string, mode: Option<ParseMode>,
                                             bot: Bot, calls: nat, countdown: int, run: Run)
    requires Follows(rec, false, origin, text, mode, bot, calls, countdown, run)
    ensures countdown >= 0 && Outcome(run).None? ==> Length(run) == countdown + 1
    decreases run
  {
    match run
    case Idle =>
    case Done(at) =>
    case Again(at, next) =>
      ExhaustsCountdown(rec, origin, next.at.text, next.at.mode, bot, calls + 1, countdown - 1, next);
  }

  /** The returned id is that of the last attempt, and it is returned exactly
      when that attempt was delivered; no earlier attempt was delivered. */
  lemma {:induction false} OutcomeIsLast(rec: Recovery, stop: bool, origin: string, text: string,
                                         mode: Option<ParseMode>, bot: Bot, calls: nat, countdown: int, run: Run)
    requires Follows(rec, stop, origin, text, mode, bot, calls, countdown, run)
    ensures run != Idle ==> (Outcome(run).Some? <==> Last(run).reply.Delivered?)
    ensures run != Idle && Outcome(run).Some? ==> Last(run).reply == Delivered(Outcome(run).value)
    ensures run.Again? ==> !run.at.reply.Delivered?
    decreases run
  {
    match run
    case Idle =>
    case Done(at) =>
    case Again(at, next) =>
      OutcomeIsLast(rec, stop, origin, next.at.text, next.at.mode, bot, calls + 1, countdown - 1, next);
  }

  /** The report to the admin chat is the last thing sent, after a failure
      that is not a BadRequest, drawn by the last attempt at countdown 0. */
  lemma {:induction false} AdminReportLast(rec: Recovery, stop: bool, origin: string, text: string,
                                           mode: Option<ParseMode>, bot: Bot, calls: nat, countdown: int, run: Run)
    requires Follows(rec, stop, origin, text, mode, bot, calls, countdown, run)
    requires forall t :: NoAdminReport(rec.pieces(t))
    ensures forall k :: 0 <= k < |Extra(rec, run)| && Extra(rec, run)[k].AdminReport? ==>
              && k == |Extra(rec, run)| - 1 && run != Idle && Outcome(run).None?
              && Last(run).countdown == 0 && Last(run).reply == Failure(Extra(rec, run)[k].description)
    decreases run
  {
    match run
    case Idle =>
    case Done(at) =>
    case Again(at, next) =>
      AdminReportLast(rec, stop, origin, next.at.text, next.at.mode, bot, calls + 1, countdown - 1, next);
      var here := SentAfter(rec, at);
      assert NoAdminReport(here);
      forall k | 0 <= k < |Extra(rec, run)| && Extra(rec, run)[k].AdminReport?
        ensures k >= |here| && Extra(rec, run)[k] == Extra(rec, next)[k - |here|]
      {
      }
  }

  predicate NoAdminReport(sent: seq<Outgoing>) {
    forall k :: 0 <= k < |sent| ==> !sent[k].AdminReport?
  }

  /** With the early stop, a too-long refusal can only be drawn by the last
      attempt, and its pieces are then all that was sent besides the attempts. */
  lemma {:induction false} PiecesOnlyAtEnd(rec: Recovery, origin: string, text: string, mode: Option<ParseMode>,
                                           bot: Bot, calls: nat, countdown: int, run: Run)
    requires Follows(rec, true, origin, text, mode, bot, calls, countdown, run)
    ensures run.Again? ==> !TooLongRefusal(rec, run.at.reply)
    ensures run != Idle && TooLongRefusal(rec, Last(run).reply) ==> Extra(rec, run) == rec.pieces(Last(run).text)
    ensures run != Idle && !TooLongRefusal(rec, Last(run).reply) ==> Extra(rec, run) == SentAfter(rec, Last(run))
    decreases run
  {
    match run
    case Idle =>
    case Done(at) =>
    case Again(at, next) =>
      PiecesOnlyAtEnd(rec, origin, next.at.text, next.at.mode, bot, calls + 1, countdown - 1, next);
      assert SentAfter(rec, at) == [];
  }

  /** `send_message_to_chat` as written, with what it returns and what it
      sent: the run is the one the declarative description admits, it holds at
      most `retry_count + 1` attempts and starts with the given message and
      parse mode, the returned id is that of a delivered last attempt, and
      when nothing was delivered every attempt was used. */
  function SendMessageToChat(message: string, mode: Option<ParseMode>, retryCount: int, bot: Bot)
    : (out: (Option<int>, Run))
    ensures Follows(Telegram, false, message, message, mode, bot, 0, retryCount, out.1)
    ensures out.0 == Outcome(out.1)
    ensures Length(out.1) <= (if retryCount < 0 then 0 else retryCount + 1)
    ensures out.1 != Idle ==> (out.0.Some? <==> Last(out.1).reply.Delivered?)
    ensures out.1 != Idle && out.0.Some? ==> Last(out.1).reply == Delivered(out.0.value)
    ensures retryCount >= 0 && out.0.None? ==> Length(out.1) == retryCount + 1
  {
    var run := SendLoop(Telegram, false, message, message, mode, bot, 0, retryCount);
    OutcomeIsLast(Telegram, false, message, message, mode, bot, 0, retryCount, run);
    ExhaustsCountdown(Telegram, message, message, mode, bot, 0, retryCount, run);
    (Outcome(run), run)
  }

  /** Corrected `send_message_to_chat`: the same loop, except that once the
      pieces of a too-long message are sent nothing more is sent. */
  function SendMessageToChatSplitOnce(message: string, mode: Option<ParseMode>, retryCount: int, bot: Bot)
    : (out: (Option<int>, Run))
    ensures Follows(Telegram, true, message, message, mode, bot, 0, retryCount, out.1)
    ensures out.0 == Outcome(out.1)
    ensures out.1 != Idle && out.0.Some? ==> Last(out.1).reply == Delivered(out.0.value)
    ensures out.1 != Idle && TooLongRefusal(Telegram, Last(out.1).reply) ==>
              Extra(Telegram, out.1) == Telegram.pieces(Last(out.1).text)
  {
    var run := SendLoop(Telegram, true, message, message, mode, bot, 0, retryCount);
    OutcomeIsLast(Telegram, true, message, message, mode, bot, 0, retryCount, run);
    PiecesOnlyAtEnd(Telegram, message, message, mode, bot, 0, retryCount, run);
    (Outcome(run), run)
  }

  /** A Bot API that always refuses with "Message is too long", the
      description as the client library reports it, without the
      "Bad Request: " prefix of the raw answer. */
  function AlwaysTooLong(): Bot {
    (n: nat, t: string, m: Option<ParseMode>) => BadRequest(TooLong)
  }

  /** The pieces sent for `message` after a "Message is too long" refusal. */
  function TooLongPieces(message: string): seq<Outgoing> {
    AsPieces(SplitMessage(message, DefaultMaxLength))
  }

  lemma TooLongRecognised()
    ensures Telegram.tooLong(TooLong)
  {
    assert OccursAt(TooLong, TooLong, 0);
  }

  /** Every match of the pattern has the `y` of `byte` one place after it. */
  lemma MatchHasY(d: string, j: int)
    ensures MatchAt(d, j) ==> d[j + 1] == 'y'
  {
    if MatchAt(d, j) {
      var w := d[j..j + |Marker|];
      assert w[1] == d[j + 1];
    }
  }

  /** A description without the letter `y` has no `byte offset` part. */
  lemma NoOffsetWithoutY(d: string)
    requires forall i :: 0 <= i < |d| ==> d[i] != 'y'
    ensures FindByteOffset(d) == None
  {
    forall j ensures !MatchAt(d, j) {
      MatchHasY(d, j);
    }
  }

  /** The too-long refusal carries no byte offset, so the repair keeps the text. */
  lemma TooLongKeepsText(text: string)
    ensures Repaired(text, TooLong) == text
  {
    NoOffsetWithoutY(TooLong);
  }

  /** Finding, as written: when Telegram refuses every attempt with
      "Message is too long", as it does for a text over its 4096-character
      limit, the pieces are sent once per attempt, so with the default three
      retries they reach the chat four times. The statement needs only a
      text longer than the 4000-character split length, which gives at
      least two pieces. */
  lemma {:induction false} TooLongResendsPieces(message: string)
    requires |message| > DefaultMaxLength
    ensures SendMessageToChat(message, Some(Markdown), 3, AlwaysTooLong()).0 == None
    ensures Extra(Telegram, SendMessageToChat(message, Some(Markdown), 3, AlwaysTooLong()).1)
            == TooLongPieces(message) + (TooLongPieces(message) + (TooLongPieces(message) + TooLongPieces(message)))
    ensures |TooLongPieces(message)| >= 2
  {
    TooLongRecognised();
    TooLongKeepsText(message);
    var bot := AlwaysTooLong();
    var p := TooLongPieces(message);
    assert |SplitMessage(message, DefaultMaxLength)| >= 2;
    var r0 := SendLoop(Telegram, false, message, message, None, bot, 3, 0);
    var r1 := SendLoop(Telegram, false, message, message, None, bot, 2, 1);
    var r2 := SendLoop(Telegram, false, message, message, Some(Markdown), bot, 1, 2);
    var r3 := SendLoop(Telegram, false, message, message, Some(Markdown), bot, 0, 3);
    assert Extra(Telegram, r0) == p;
    assert Extra(Telegram, r1) == p + Extra(Telegram, r0);
    assert Extra(Telegram, r2) == p + Extra(Telegram, r1);
    assert Extra(Telegram, r3) == p + Extra(Telegram, r2);
    assert Outcome(r0) == None;
    assert Outcome(r3) == Outcome(r2) == Outcome(r1) == Outcome(r0);
    assert SendMessageToChat(message, Some(Markdown), 3, bot) == (Outcome(r3), r3);
  }

  /** The corrected function sends the pieces of the same message once, and
      its first attempt is its last. */
  lemma TooLongSplitOnce(message: string)
    requires |message| > DefaultMaxLength
    ensures SendMessageToChatSplitOnce(message, Some(Markdown), 3, AlwaysTooLong()).1.Done?
    ensures Extra(Telegram, SendMessageToChatSplitOnce(message, Some(Markdown), 3, AlwaysTooLong()).1)
            == TooLongPieces(message)
  {
    TooLongRecognised();
  }
}

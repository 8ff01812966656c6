/**
  Building the message list sent to the model: the system prompt, a prefix
  of the stored history that fits the context window, an optional quoted
  reply (after dropping a matching last answer), and the user's query. The
  tokenizer and the markdown-to-text conversion are foreign libraries and
  enter as function parameters.
*/
module Prompt {
  import opened Util
  import opened Seqs
  import opened PyStr
  import opened AiStore

  datatype Role = System | User | Assistant

  function RoleName(role: Role): string {
    match role
    case System => "system"
    case User => "user"
    case Assistant => "assistant"
  }

  datatype Message = Message(role: Role, content: string)

  /** The tokenizer: how many tokens a text encodes to. */
  type Tokenizer = string -> nat

  /** `num_tokens(text, corr_token)`: the token count plus the caller's
      allowance for roles and separators. */
  function NumTokens(tok: Tokenizer, text: string, corr: nat): (n: nat)
    ensures n >= corr
  {
    tok(text) + corr
  }

  /** The two foreign steps of `clean_and_split_text`: markdown rendered and
      reduced to its text, and Python's `\w` character class. */
  datatype Cleaner = Cleaner(plainText: string -> string, isWordChar: char -> bool)

  const WordLimit: nat := 15

  /** The characters `[^\w\s]` does not match: word characters and
      whitespace. */
  function Kept(isWordChar: char -> bool): char -> bool {
    (c: char) => isWordChar(c) || IsPySpace(c)
  }

  /** `PUNCTUATION_RE.sub('', s)` for the pattern `[^\w\s]`: drops every
      character that is neither a word character nor whitespace, keeping the
      others in order. */
  function StripPunctuation(s: string, isWordChar: char -> bool): (r: string)
    ensures r == Filter(s, Kept(isWordChar))
    ensures forall i :: 0 <= i < |r| ==> isWordChar(r[i]) || IsPySpace(r[i])
    ensures forall i :: 0 <= i < |s| && (isWordChar(s[i]) || IsPySpace(s[i])) ==> s[i] in r
  {
    if s == [] then []
    else
      var rest := StripPunctuation(s[1..], isWordChar);
      assert forall i :: 1 <= i < |s| ==> s[i] == s[1..][i - 1];
      if isWordChar(s[0]) || IsPySpace(s[0]) then [s[0]] + rest else rest
  }

  /** The words of the cleaned text. */
  function CleanWords(text: string, cl: Cleaner): seq<string> {
    Words(StripPunctuation(cl.plainText(text), cl.isWordChar))
  }

  /** `split()[:limit]` of the cleaned text: the first `limit` words in
      order, or all of them when there are fewer. */
  function LeadingWords(text: string, cl: Cleaner, limit: nat): (r: seq<string>)
    ensures |r| == (if |CleanWords(text, cl)| <= limit then |CleanWords(text, cl)| else limit)
    ensures r == CleanWords(text, cl)[..|r|]
    ensures forall k, i :: 0 <= k < |r| && 0 <= i < |r[k]| ==> cl.isWordChar(r[k][i])
    ensures forall k :: 0 <= k < |r| ==> r[k] != []
  {
    var words := CleanWords(text, cl);
    if |words| <= limit then words else words[..limit]
  }

  /** `clean_and_split_text(text)`: the set of the first fifteen words. */
  function CleanAndSplit(text: string, cl: Cleaner): (r: set<string>)
    ensures |r| <= WordLimit
    ensures forall w :: w in r <==> exists k :: 0 <= k < |CleanWords(text, cl)| && k < WordLimit && CleanWords(text, cl)[k] == w
  {
    var ws := LeadingWords(text, cl, WordLimit);
    SetOfSeqSize(ws);
    set w | w in ws
  }

  /** A text whose rendering is words of word characters separated by
      whitespace: `clean_and_split_text` gives the set of its first fifteen
      words, whatever whitespace stands between them. */
  lemma CleanAndSplitOfPlainWords(text: string, cl: Cleaner, ws: seq<string>, seps: seq<string>)
    requires SplitBy(cl.plainText(text), ws, seps)
    requires forall k, i :: 0 <= k < |ws| && 0 <= i < |ws[k]| ==> cl.isWordChar(ws[k][i])
    ensures var first := ws[..(if |ws| <= WordLimit then |ws| else WordLimit)];
      CleanAndSplit(text, cl) == set w | w in first
  {
    var plain := cl.plainText(text);
    InterleaveKept(seps, ws, cl.isWordChar);
    FilterAll(plain, Kept(cl.isWordChar));
    WordsOfSplit(plain, ws, seps);
    assert CleanWords(text, cl) == ws;
  }

  /** Every character of words of word characters and whitespace gaps is
      kept by the punctuation filter. */
  lemma {:induction false} InterleaveKept(seps: seq<string>, ws: seq<string>, isWordChar: char -> bool)
    requires |seps| == |ws| + 1
    requires forall k :: 0 <= k < |seps| ==> AllPySpace(seps[k])
    requires forall k, i :: 0 <= k < |ws| && 0 <= i < |ws[k]| ==> isWordChar(ws[k][i])
    ensures forall i :: 0 <= i < |Interleave(seps, ws)| ==> Kept(isWordChar)(Interleave(seps, ws)[i])
    decreases |ws|
  {
    var s := Interleave(seps, ws);
    if ws == [] {
      assert forall i :: 0 <= i < |s| ==> IsPySpace(seps[0][i]);
    } else {
      var u := Interleave(seps[1..], ws[1..]);
      assert forall k :: 0 <= k < |seps| - 1 ==> seps[1..][k] == seps[k + 1];
      assert forall k :: 0 <= k < |ws| - 1 ==> ws[1..][k] == ws[k + 1];
      InterleaveKept(seps[1..], ws[1..], isWordChar);
      assert s == seps[0] + ws[0] + u;
      forall i | 0 <= i < |s|
        ensures Kept(isWordChar)(s[i])
      {
        if i < |seps[0]| {
          assert s[i] == seps[0][i];
        } else if i < |seps[0]| + |ws[0]| {
          assert s[i] == ws[0][i - |seps[0]|];
        } else {
          assert s[i] == u[i - |seps[0]| - |ws[0]|];
        }
      }
    }
  }

  lemma {:induction false} SetOfSeqSize<T>(xs: seq<T>)
    ensures |set w | w in xs| <= |xs|
  {
    if xs != [] {
      SetOfSeqSize(xs[1..]);
      assert (set w | w in xs) == {xs[0]} + (set w | w in xs[1..]);
    }
  }

  /** `add_to_prompt`: appends one message. */
  function AddToPrompt(msgs: seq<Message>, role: Role, content: string): (r: seq<Message>)
    ensures |r| == |msgs| + 1 && r[..|msgs|] == msgs
    ensures r[|msgs|] == Message(role, content)
  {
    msgs + [Message(role, content)]
  }

  /** The last message has the role and, word set for word set, the text. */
  predicate EchoesLast(msgs: seq<Message>, role: Role, text: string, cl: Cleaner) {
    && msgs != []
    && msgs[|msgs| - 1].role == role
    && CleanAndSplit(msgs[|msgs| - 1].content, cl) == CleanAndSplit(text, cl)
  }

  /** `remove_from_prompt`: drops the last message exactly when it echoes the
      given role and text; otherwise the list is unchanged. */
  function RemoveFromPrompt(msgs: seq<Message>, role: Role, text: string, cl: Cleaner): (r: seq<Message>)
    ensures EchoesLast(msgs, role, text, cl) ==> r == msgs[..|msgs| - 1]
    ensures !EchoesLast(msgs, role, text, cl) ==> r == msgs
    ensures r != msgs <==> EchoesLast(msgs, role, text, cl)
  {
    if EchoesLast(msgs, role, text, cl) then
      assert |msgs[..|msgs| - 1]| != |msgs|;
      msgs[..|msgs| - 1]
    else msgs
  }

  /** Removing what was just added with the same role and text gives the
      list back. */
  lemma RemoveUndoesAdd(msgs: seq<Message>, role: Role, text: string, cl: Cleaner)
    ensures RemoveFromPrompt(AddToPrompt(msgs, role, text), role, text, cl) == msgs
  {
    assert EchoesLast(AddToPrompt(msgs, role, text), role, text, cl);
  }

  /** Tokens a history pair adds to the running count: its two counts and a
      fixed allowance of 11 for roles and separators. */
  const PairOverhead: nat := 11

  function PairCost(row: HistoryRow): nat {
    row.questionTokens + row.answerTokens + PairOverhead
  }

  function SumCost(rows: seq<HistoryRow>): nat {
    if rows == [] then 0 else PairCost(rows[0]) + SumCost(rows[1..])
  }

  /** The number of leading history rows the budget loop admits: a row is
      admitted when the count after adding it is still below the window, and
      the first row that reaches the window ends the loop. */
  function IncludedCount(rows: seq<HistoryRow>, counter: int, window: int): (n: nat)
    ensures n <= |rows|
    ensures forall k :: 1 <= k <= n ==> counter + SumCost(rows[..k]) < window
    ensures n < |rows| ==> counter + SumCost(rows[..n + 1]) >= window
  {
    if rows == [] then 0
    else
      var next := counter + PairCost(rows[0]);
      SumCostOfPrefixes(rows);
      if next >= window then 0
      else 1 + IncludedCount(rows[1..], next, window)
  }

  /** A prefix of length `k` costs the first row plus the tail's prefix
      of length `k - 1`. */
  lemma SumCostOfPrefixes(rows: seq<HistoryRow>)
    requires rows != []
    ensures forall k :: 1 <= k <= |rows| ==> SumCost(rows[..k]) == PairCost(rows[0]) + SumCost(rows[1..][..k - 1])
  {
    forall k | 1 <= k <= |rows|
      ensures SumCost(rows[..k]) == PairCost(rows[0]) + SumCost(rows[1..][..k - 1])
    {
      assert rows[..k][1..] == rows[1..][..k - 1];
    }
  }

  /** The admitted rows form a prefix: once a row would overflow the
      window, no row after it matters, however small. */
  lemma {:induction false} LaterRowsIgnored(rows: seq<HistoryRow>, later: seq<HistoryRow>, counter: int, window: int)
    requires IncludedCount(rows, counter, window) < |rows|
    ensures IncludedCount(rows + later, counter, window) == IncludedCount(rows, counter, window)
    decreases |rows|
  {
    var next := counter + PairCost(rows[0]);
    assert (rows + later)[0] == rows[0];
    if next < window {
      assert (rows + later)[1..] == rows[1..] + later;
      LaterRowsIgnored(rows[1..], later, next, window);
    }
  }

  /** Each history row becomes the user's question followed by the
      assistant's answer, rows in order. */
  function Pairs(rows: seq<HistoryRow>): (r: seq<Message>)
    ensures |r| == 2 * |rows|
    ensures forall k :: 0 <= k < |rows| ==>
      r[2 * k] == Message(User, rows[k].question) && r[2 * k + 1] == Message(Assistant, rows[k].answer)
  {
    if rows == [] then []
    else
      var rest := Pairs(rows[1..]);
      var r := [Message(User, rows[0].question), Message(Assistant, rows[0].answer)] + rest;
      PairsShift(rows, rest, r);
      r
  }

  lemma PairsShift(rows: seq<HistoryRow>, rest: seq<Message>, r: seq<Message>)
    requires rows != [] && |rest| == 2 * (|rows| - 1)
    requires forall k :: 0 <= k < |rows| - 1 ==>
      rest[2 * k] == Message(User, rows[1..][k].question) && rest[2 * k + 1] == Message(Assistant, rows[1..][k].answer)
    requires r == [Message(User, rows[0].question), Message(Assistant, rows[0].answer)] + rest
    ensures forall k :: 0 <= k < |rows| ==>
      r[2 * k] == Message(User, rows[k].question) && r[2 * k + 1] == Message(Assistant, rows[k].answer)
  {
    forall k | 0 <= k < |rows|
      ensures r[2 * k] == Message(User, rows[k].question) && r[2 * k + 1] == Message(Assistant, rows[k].answer)
    {
      if k > 0 {
        var j := k - 1;
        assert 2 * k == 2 * j + 2;
        assert r[2 * k] == rest[2 * j] && r[2 * k + 1] == rest[2 * j + 1];
        assert rows[1..][j] == rows[k];
      }
    }
  }

  const ReplyPrefix: string := "A message to analyze that you are asked to respond to: "

  /** Python truthiness of an optional text: present and non-empty. */
  predicate Truthy(s: Option<string>) {
    s.Some? && s.value != ""
  }

  /** What `get_prompt` reads from the request and its configuration. */
  datatype PromptInput = PromptInput(
    systemText: string,
    active: Option<Id>,
    txs: seq<AITransaction>,
    timeStart: Instant,
    now: Instant,
    reply: Option<string>,
    query: string,
    queryTokens: int,
    systemTokens: int,
    contextWindow: int)

  /** The message list and the query token count after the reply's share. */
  datatype Built = Built(messages: seq<Message>, queryTokens: int)

  /** History is only fetched for a user with a stored configuration. */
  function Fetched(input: PromptInput): seq<HistoryRow> {
    if input.active.Some? then History(input.txs, input.active.value, input.timeStart, input.now) else []
  }

  /** The query count with the quoted reply's tokens (plus 4) added. */
  function QueryTokensWithReply(input: PromptInput, tok: Tokenizer): int {
    if Truthy(input.reply) then input.queryTokens + NumTokens(tok, input.reply.value, 4)
    else input.queryTokens
  }

  /** The system message followed by the admitted history pairs. */
  function Head(input: PromptInput, tok: Tokenizer): seq<Message> {
    var rows := Fetched(input);
    var n := IncludedCount(rows, QueryTokensWithReply(input, tok) + input.systemTokens, input.contextWindow);
    [Message(System, input.systemText)] + Pairs(rows[..n])
  }

  /** `get_prompt`. */
  function GetPrompt(input: PromptInput, tok: Tokenizer, cl: Cleaner): (r: Built)
    ensures |r.messages| >= 2
    ensures r.messages[0] == Message(System, input.systemText)
    ensures r.messages[|r.messages| - 1] == Message(User, input.query)
    ensures r.queryTokens == input.queryTokens + (if Truthy(input.reply) then tok(input.reply.value) + 4 else 0)
    ensures !Truthy(input.reply) ==> r.messages == Head(input, tok) + [Message(User, input.query)]
    ensures Truthy(input.reply) ==>
      && r.messages[|r.messages| - 2] == Message(Assistant, ReplyPrefix + input.reply.value)
      && r.messages[..|r.messages| - 2] == RemoveFromPrompt(Head(input, tok), Assistant, input.reply.value, cl)
    ensures input.active.None? ==> |r.messages| == if Truthy(input.reply) then 3 else 2
  {
    var head := Head(input, tok);
    var body :=
      if Truthy(input.reply) then
        AddToPrompt(RemoveFromPrompt(head, Assistant, input.reply.value, cl), Assistant, ReplyPrefix + input.reply.value)
      else head;
    var msgs := AddToPrompt(body, User, input.query);
    assert head[0] == Message(System, input.systemText);
    assert Truthy(input.reply) ==> body[..|body| - 1] == RemoveFromPrompt(head, Assistant, input.reply.value, cl);
    assert msgs[..|msgs| - 1] == body;
    Built(msgs, QueryTokensWithReply(input, tok))
  }

  /** The quoted-reply step never removes the system message: only an
      assistant message can be dropped. */
  lemma SystemMessageKept(head: seq<Message>, reply: string, cl: Cleaner)
    requires head != [] && head[0].role == System
    ensures RemoveFromPrompt(head, Assistant, reply, cl) != []
    ensures RemoveFromPrompt(head, Assistant, reply, cl)[0] == head[0]
  {
  }

  /** `"{}: {}".format(key, value)` over one message's two keys, in insertion
      order. */
  function ItemText(m: Message): string {
    "role: " + RoleName(m.role) + "content: " + m.content
  }

  /** The text `finite_tokens` counts: every message's items, concatenated. */
  function PromptText(msgs: seq<Message>): string {
    if msgs == [] then "" else ItemText(msgs[0]) + PromptText(msgs[1..])
  }

  /** The counted text of a list is the texts of its parts, in order. */
  lemma {:induction false} PromptTextAppend(a: seq<Message>, b: seq<Message>)
    ensures PromptText(a + b) == PromptText(a) + PromptText(b)
  {
    if a == [] {
      assert a + b == b;
    } else {
      assert (a + b)[0] == a[0];
      assert (a + b)[1..] == a[1..] + b;
      PromptTextAppend(a[1..], b);
    }
  }
}

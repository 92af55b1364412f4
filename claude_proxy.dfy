/** The `/api/claude` endpoint of server.js: the request checks, the message history
    built from an untrusted `conversation` array, the filter on its first element,
    the `system` parameter, and the reply text taken from the model's answer. The
    call to the Anthropic API is the parameter `outcome`. Also the no-cache rule
    server.js applies to `.html` paths. */
module ClaudeProxy {
  import opened JsBase
  import opened JsText

  /** A JSON value as `express.json()` parses it; numbers are kept as integers, which
      is all that their truthiness needs. */
  datatype Json =
    | Null
    | Bool(b: bool)
    | Num(n: int)
    | Str(s: string)
    | Arr(items: seq<Json>)
    | Obj(fields: map<string, Json>)

  datatype Role = User | Assistant

  /** `{ role, content: [{ type: 'text', text }] }`. */
  datatype Message = Message(role: Role, text: string)

  /** The text of a history message: not empty, and neither starting nor ending with
      white space, as `trim` leaves it. */
  predicate CleanText(t: string)
  {
    t != "" && !IsSpace(t[0]) && !IsSpace(t[|t| - 1])
  }

  /** Such a text is its own trim. */
  lemma CleanTextTrimmed(t: string)
    requires CleanText(t)
    ensures Trim(t) == t
  {
    assert TrimStart(t) == t;
    assert TrimEnd(t) == t;
  }

  /** What one `conversation` entry contributes: only an object whose `content` is a
      string that is not blank gives a message; its role is the assistant's only when
      `role` is exactly `"assistant"`. */
  function EntryMessage(entry: Json): (r: Option<Message>)
    ensures r.Some? <==> entry.Obj? && "content" in entry.fields && entry.fields["content"].Str?
                         && !Blank(entry.fields["content"].s)
    ensures r.Some? ==> CleanText(r.value.text) && r.value.text == Trim(entry.fields["content"].s)
    ensures r.Some? ==> (r.value.role == Assistant <==> "role" in entry.fields && entry.fields["role"] == Str("assistant"))
  {
    match entry
    case Obj(fields) =>
      var role := if "role" in fields && fields["role"] == Str("assistant") then Assistant else User;
      var text := if "content" in fields && fields["content"].Str? then Trim(fields["content"].s) else "";
      if text == "" then None
      else Some(Message(role, text))
    case _ => None
  }

  function AsSeq(m: Option<Message>): seq<Message>
  {
    if m.Some? then [m.value] else []
  }

  /** Every message has clean text. */
  predicate AllClean(messages: seq<Message>)
  {
    forall k :: 0 <= k < |messages| ==> CleanText(messages[k].text)
  }

  lemma AllCleanAppend(a: seq<Message>, b: seq<Message>)
    requires AllClean(a) && AllClean(b)
    ensures AllClean(a + b)
  {
    forall k | 0 <= k < |a + b| ensures CleanText((a + b)[k].text) {
      if k < |a| {
        assert (a + b)[k] == a[k];
      } else {
        assert (a + b)[k] == b[k - |a|];
      }
    }
  }

  /** The messages the entries give, in order. */
  function Kept(entries: seq<Json>): (r: seq<Message>)
    ensures |r| <= |entries|
    ensures AllClean(r)
  {
    if entries == [] then []
    else
      var prev := Kept(entries[..|entries| - 1]);
      var last := AsSeq(EntryMessage(entries[|entries| - 1]));
      AllCleanAppend(prev, last);
      prev + last
  }

  /** The kept messages of two runs of entries are the kept messages of each. */
  lemma {:induction false} KeptAppend(a: seq<Json>, b: seq<Json>)
    ensures Kept(a + b) == Kept(a) + Kept(b)
  {
    if b != [] {
      var b' := b[..|b| - 1];
      assert (a + b)[..|a + b| - 1] == a + b';
      KeptAppend(a, b');
    } else {
      assert a + b == a;
    }
  }

  /** An entry is kept exactly when it gives a message: every entry that gives one is
      kept, in place. */
  lemma KeptOne(e: Json)
    ensures Kept([e]) == AsSeq(EntryMessage(e))
  {
    assert [e][..0] == [];
  }

  lemma KeptStep(entries: seq<Json>, i: nat)
    requires i < |entries|
    ensures Kept(entries[..i + 1]) == Kept(entries[..i]) + AsSeq(EntryMessage(entries[i]))
  {
    assert entries[..i + 1][..i] == entries[..i];
  }

  /** `conversation` when it is an array; anything else contributes nothing. */
  function ConversationMessages(conversation: Json): seq<Message>
  {
    if conversation.Arr? then Kept(conversation.items) else []
  }

  /** The loop at lines 168-186: the kept entries, then the user's prompt. */
  method BuildHistory(conversation: Json, prompt: string) returns (history: seq<Message>)
    ensures history == ConversationMessages(conversation) + [Message(User, Trim(prompt))]
  {
    history := [];
    if conversation.Arr? {
      var entries := conversation.items;
      var i := 0;
      while i < |entries|
        invariant 0 <= i <= |entries|
        invariant history == Kept(entries[..i])
      {
        var message := EntryMessage(entries[i]);
        KeptStep(entries, i);
        assert Kept(entries[..i + 1]) == history + AsSeq(message);
        // An entry that gives no message is skipped.
        if message.Some? {
          assert AsSeq(message) == [message.value];
          history := history + [message.value];
        }
        i := i + 1;
      }
      assert entries[..i] == entries;
      assert history == ConversationMessages(conversation);
    }
    var ask := Message(User, Trim(prompt));
    history := history + [ask];
  }

  /** The `filter` at lines 188-193: the first message goes when it is not the
      user's, and every other message stays. */
  function FilterLeading(history: seq<Message>): (r: seq<Message>)
    ensures |history| > 0 && history[0].role != User ==> r == history[1..]
    ensures |history| == 0 || history[0].role == User ==> r == history
  {
    if |history| > 0 && history[0].role != User then history[1..] else history
  }

  /** The filter drops at most one message and never the last one. */
  lemma FilterKeepsLast(history: seq<Message>)
    requires |history| > 1 || (|history| == 1 && history[0].role == User)
    ensures |FilterLeading(history)| >= |history| - 1
    ensures FilterLeading(history)[|FilterLeading(history)| - 1] == history[|history| - 1]
  {
  }

  /** Only the first message is looked at: two assistant turns in a row still leave
      the list starting with an assistant message. */
  lemma FilterDropsOnlyOne(a1: string, a2: string, u: string)
    ensures FilterLeading([Message(Assistant, a1), Message(Assistant, a2), Message(User, u)])
              == [Message(Assistant, a2), Message(User, u)]
  {
  }

  /** A prompt that is not blank trims to clean text. */
  lemma PromptClean(prompt: string)
    requires !Blank(prompt)
    ensures CleanText(Trim(prompt))
  {
    var t := Trim(prompt);
    assert t != [];
  }

  /** The filter keeps the texts clean. */
  lemma FilterClean(history: seq<Message>)
    requires AllClean(history)
    ensures AllClean(FilterLeading(history))
  {
    var messages := FilterLeading(history);
    if messages != history {
      forall k | 0 <= k < |messages| ensures CleanText(messages[k].text) {
        assert messages[k] == history[k + 1];
      }
    }
  }

  /** What goes to the API ends with the user's trimmed prompt, and every message in
      it has trimmed, non-empty text. */
  lemma HistoryClean(conversation: Json, prompt: string)
    requires !Blank(prompt)
    ensures var messages := FilterLeading(ConversationMessages(conversation) + [Message(User, Trim(prompt))]);
            |messages| > 0 && messages[|messages| - 1] == Message(User, Trim(prompt)) && AllClean(messages)
  {
    var kept := ConversationMessages(conversation);
    var last := [Message(User, Trim(prompt))];
    PromptClean(prompt);
    assert AllClean(last);
    AllCleanAppend(kept, last);
    var history := kept + last;
    FilterClean(history);
    assert history[|history| - 1] == last[0];
    FilterKeepsLast(history);
  }

  /** `!prompt || typeof prompt !== 'string' || !prompt.trim()` fails. */
  predicate PromptOk(prompt: Option<Json>)
  {
    prompt.Some? && prompt.value.Str? && !Blank(prompt.value.s)
  }

  /** `typeof system === 'string' && system.trim() ? system.trim() : undefined`. */
  function SystemParam(system: Option<Json>): (r: Option<string>)
    ensures r.Some? <==> system.Some? && system.value.Str? && !Blank(system.value.s)
    ensures r.Some? ==> r.value == Trim(system.value.s) && CleanText(r.value)
  {
    if system.Some? && system.value.Str? && Trim(system.value.s) != "" then Some(Trim(system.value.s))
    else None
  }

  const NotConfigured := "Claude assistant is not configured on this server."
  const PromptRequired := "Prompt is required."
  const MaxTokens := 1024
  const DefaultModel := "claude-3-5-sonnet-20241022"

  /** `process.env.ANTHROPIC_MODEL || 'claude-3-5-sonnet-20241022'`. */
  function ModelName(configured: Option<string>): (r: string)
    ensures Present(configured) ==> r == configured.value
    ensures !Present(configured) ==> r == DefaultModel
  {
    if Present(configured) then configured.value else DefaultModel
  }

  /** The arguments of `anthropicClient.messages.create`. */
  datatype ClaudeRequest = ClaudeRequest(model: string, maxTokens: int, system: Option<string>, messages: seq<Message>)

  /** The endpoint either answers at once with an error status, or calls the API. */
  datatype Prepared = Rejected(status: int, error: string) | Forward(request: ClaudeRequest)

  /** The body fields, with `undefined` for an absent one. */
  function Field(body: map<string, Json>, key: string): Option<Json>
  {
    if key in body then Some(body[key]) else None
  }

  /** Everything the endpoint does before the API call. `hasClient` says whether
      `ANTHROPIC_API_KEY` was set at start-up; `body` is `req.body || {}`. */
  method PrepareRequest(hasClient: bool, modelEnv: Option<string>, body: map<string, Json>)
    returns (prepared: Prepared)
    ensures !hasClient ==> prepared == Rejected(503, NotConfigured)
    ensures hasClient && !PromptOk(Field(body, "prompt")) ==> prepared == Rejected(400, PromptRequired)
    ensures hasClient && PromptOk(Field(body, "prompt")) ==>
              var conversation := if "conversation" in body then body["conversation"] else Arr([]);
              prepared == Forward(ClaudeRequest(ModelName(modelEnv), MaxTokens, SystemParam(Field(body, "system")),
                FilterLeading(ConversationMessages(conversation) + [Message(User, Trim(body["prompt"].s))])))
    ensures prepared.Forward? ==>
              var messages := prepared.request.messages;
              |messages| > 0 && messages[|messages| - 1] == Message(User, Trim(body["prompt"].s)) && AllClean(messages)
  {
    if !hasClient {
      return Rejected(503, NotConfigured);
    }
    var prompt := Field(body, "prompt");
    // `conversation = []` applies only when the field is absent.
    var conversation := if "conversation" in body then body["conversation"] else Arr([]);
    var system := Field(body, "system");
    if !PromptOk(prompt) {
      return Rejected(400, PromptRequired);
    }
    var history := BuildHistory(conversation, prompt.value.s);
    var messages := FilterLeading(history);
    HistoryClean(conversation, prompt.value.s);
    prepared := Forward(ClaudeRequest(ModelName(modelEnv), MaxTokens, SystemParam(system), messages));
  }

  /** One element of the API's `content` array. */
  datatype Part = Part(kind: string, text: string)

  /** `part.type === 'text' ? part.text : ''`. */
  function PartText(p: Part): string
  {
    if p.kind == "text" then p.text else ""
  }

  /** `.map(PartText).join('')`. */
  function JoinText(parts: seq<Part>): string
  {
    if parts == [] then "" else JoinText(parts[..|parts| - 1]) + PartText(parts[|parts| - 1])
  }

  lemma {:induction false} JoinTextAppend(a: seq<Part>, b: seq<Part>)
    ensures JoinText(a + b) == JoinText(a) + JoinText(b)
  {
    if b != [] {
      assert (a + b)[..|a + b| - 1] == a + b[..|b| - 1];
      JoinTextAppend(a, b[..|b| - 1]);
    } else {
      assert a + b == a;
    }
  }

  /** `(response?.content || []).map(...).join('').trim()`. */
  function ReplyText(content: Option<seq<Part>>): (r: string)
    ensures r == [] || (!IsSpace(r[0]) && !IsSpace(r[|r| - 1]))
    ensures content.None? ==> r == ""
  {
    Trim(if content.Some? then JoinText(content.value) else [])
  }

  /** A part that is not text contributes nothing to the joined text. */
  lemma JoinTextSkips(before: seq<Part>, p: Part, after: seq<Part>)
    requires p.kind != "text"
    ensures JoinText(before + [p] + after) == JoinText(before + after)
  {
    assert JoinText([p]) == "" by {
      assert [p][..0] == [];
    }
    JoinTextAppend(before, [p]);
    JoinTextAppend(before + [p], after);
    JoinTextAppend(before, after);
  }

  /** A part that is not text, wherever it stands, does not change the reply. */
  lemma NonTextPartIgnored(before: seq<Part>, p: Part, after: seq<Part>)
    requires p.kind != "text"
    ensures ReplyText(Some(before + [p] + after)) == ReplyText(Some(before + after))
  {
    JoinTextSkips(before, p, after);
  }

  /** An answer made of text parts only, with these texts. */
  function TextParts(texts: seq<string>): (parts: seq<Part>)
    ensures |parts| == |texts|
    ensures forall k :: 0 <= k < |parts| ==> parts[k] == Part("text", texts[k])
  {
    if texts == [] then [] else TextParts(texts[..|texts| - 1]) + [Part("text", texts[|texts| - 1])]
  }

  function Concat(texts: seq<string>): string
  {
    if texts == [] then "" else Concat(texts[..|texts| - 1]) + texts[|texts| - 1]
  }

  lemma {:induction false} JoinOfTexts(texts: seq<string>)
    ensures JoinText(TextParts(texts)) == Concat(texts)
  {
    if texts != [] {
      var parts := TextParts(texts);
      assert parts[..|parts| - 1] == TextParts(texts[..|texts| - 1]);
      JoinOfTexts(texts[..|texts| - 1]);
    }
  }

  /** The reply to an answer of text parts is the trimmed concatenation of their texts. */
  lemma ReplyOfTextParts(texts: seq<string>)
    ensures ReplyText(Some(TextParts(texts))) == Trim(Concat(texts))
  {
    JoinOfTexts(texts);
  }

  /** What the API call did: answered with some content and model name, or threw an
      error with these optional fields. */
  datatype Outcome =
    | Answered(content: Option<seq<Part>>, model: Option<string>)
    | Failed(status: Option<int>, statusCode: Option<int>, dataMessage: Option<string>, message: Option<string>)

  datatype ChatBody = ChatError(error: string) | ChatReply(reply: string, model: string)

  datatype ChatResponse = ChatResponse(status: int, body: ChatBody)

  const FailedToReach := "Failed to reach Claude assistant."

  /** The first truthy number, else 500. */
  function ErrorStatus(status: Option<int>, statusCode: Option<int>): (r: int)
    ensures r != 0
    ensures status.Some? && status.value != 0 ==> r == status.value
    ensures (status.None? || status.value == 0) && statusCode.Some? && statusCode.value != 0 ==> r == statusCode.value
    ensures (status.None? || status.value == 0) && (statusCode.None? || statusCode.value == 0) ==> r == 500
  {
    if status.Some? && status.value != 0 then status.value
    else if statusCode.Some? && statusCode.value != 0 then statusCode.value
    else 500
  }

  /** The response sent once the API call has returned or thrown. */
  function Respond(outcome: Outcome, model: string): (r: ChatResponse)
    ensures outcome.Answered? ==> r.status == 200 && r.body == ChatReply(ReplyText(outcome.content),
              if Present(outcome.model) then outcome.model.value else model)
    ensures outcome.Failed? ==>
              r.status == ErrorStatus(outcome.status, outcome.statusCode) && r.body.ChatError? && r.body.error != ""
    // The message: the API's own error message, else the error's, else the fallback.
    ensures outcome.Failed? && Present(outcome.dataMessage) ==> r.body.error == outcome.dataMessage.value
    ensures outcome.Failed? && !Present(outcome.dataMessage) && Present(outcome.message) ==>
              r.body.error == outcome.message.value
    ensures outcome.Failed? && !Present(outcome.dataMessage) && !Present(outcome.message) ==>
              r.body.error == FailedToReach
  {
    match outcome
    case Answered(content, answeredModel) =>
      ChatResponse(200, ChatReply(ReplyText(content), if Present(answeredModel) then answeredModel.value else model))
    case Failed(status, statusCode, dataMessage, message) =>
      var text := if Present(dataMessage) then dataMessage.value
                  else if Present(message) then message.value
                  else FailedToReach;
      ChatResponse(ErrorStatus(status, statusCode), ChatError(text))
  }

  /** The `.html` suffix test of the middleware at lines 21-28. */
  predicate EndsWithHtml(path: string)
  {
    |path| >= 5 && path[|path| - 5..] == ".html"
  }

  /** The headers the middleware adds: the three no-cache headers exactly for paths
      ending in `.html`, none otherwise. */
  function NoCacheHeaders(path: string): (r: seq<(string, string)>)
    ensures r != [] <==> EndsWithHtml(path)
    ensures EndsWithHtml(path) ==>
              r == [("Cache-Control", "no-cache, no-store, must-revalidate"), ("Pragma", "no-cache"), ("Expires", "0")]
  {
    if EndsWithHtml(path) then
      [("Cache-Control", "no-cache, no-store, must-revalidate"), ("Pragma", "no-cache"), ("Expires", "0")]
    else []
  }

  /** Whether a path gets the headers depends on its last five characters alone:
      two paths that end alike get the same headers. */
  lemma NoCacheBySuffix(p: string, q: string)
    ensures |p| >= 5 && |q| >= 5 && p[|p| - 5..] == q[|q| - 5..] ==> NoCacheHeaders(p) == NoCacheHeaders(q)
  {
  }
}

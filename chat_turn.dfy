/** `exports.handler`: one chat turn. A POST body names a persona, the chat history and the
    user's text; the handler asks the completion service for a reply (once more with the
    fallback model when the primary model is refused), shortens it, in the memory deployment
    asks for one fact about the user, and answers with a JSON envelope. The service is the
    parameter `complete`, and the requests sent to it are returned as `calls`. */
module ChatTurn {
  import opened Wrappers
  import opened JsString
  import opened Sentences
  import opened Prompt
  import opened Memory

  const PrimaryModel := "gpt-4o-mini"
  const FallbackModel := "gpt-4o"
  /** The token budget of the memory call. */
  const MemoryTokens := 120
  /** The turn's progress value, fixed in the envelope. */
  const TurnProgress := 50

  /** The fallback is a different model, so the two reply calls can be told apart. */
  lemma ModelsDiffer()
    ensures PrimaryModel != FallbackModel
  {
    assert |PrimaryModel| != |FallbackModel|;
  }

  /** One request to the completion service: `{ model, max_tokens, messages }`. */
  datatype Request = Request(model: string, messages: seq<Message>, maxTokens: nat)

  /** What one call to the service comes to: an answer carrying
      `choices[0].message.content` (`""` when missing), a refusal with a non-ok status and
      its body text, or a failure (network, unreadable JSON) with the message of the
      error thrown. */
  datatype CallResult = Answered(content: string) | Rejected(raw: string) | Failed(message: string)

  /** A thrown error: its `message`, and the `detail` set on refusals. */
  datatype Error = Error(message: string, detail: Option<string>)

  /** `callOpenAI`: the trimmed answer, or the error it throws. */
  function Completion(r: CallResult): Result<string, Error> {
    match r
    case Answered(content) => Ok(Trim(content))
    case Rejected(raw) => Err(Error("OpenAI error", Some(raw)))
    case Failed(message) => Err(Error(message, None))
  }

  /** `(e.detail||'').includes('model') || (e.detail||'').includes('not permitted')`. */
  predicate FallbackEligible(e: Error) {
    var detail := e.detail.GetOr("");
    Includes(detail, "model") || Includes(detail, "not permitted")
  }

  /** The fallback is taken exactly when the error detail holds one of the two phrases;
      an error without detail, such as a network failure, is never retried. */
  lemma FallbackEligibleIff(e: Error)
    ensures FallbackEligible(e) <==>
      e.detail.Some? &&
      ((exists i: nat :: OccursAt(e.detail.value, "model", i)) ||
       (exists i: nat :: OccursAt(e.detail.value, "not permitted", i)))
    ensures e.detail.None? ==> !FallbackEligible(e)
  {
    var detail := e.detail.GetOr("");
    IncludesIffOccurs(detail, "model");
    IncludesIffOccurs(detail, "not permitted");
  }

  /** Only a refusal whose body contains the text `model` (case-sensitive) or `not permitted`
      is retried. */
  lemma RefusalFallback(raw: string)
    ensures var r := Completion(Rejected(raw));
      r.Err? && (FallbackEligible(r.error) <==>
        (exists i: nat :: OccursAt(raw, "model", i)) || (exists i: nat :: OccursAt(raw, "not permitted", i)))
  {
    FallbackEligibleIff(Completion(Rejected(raw)).error);
  }

  /** `body.payload`: whether the chat starts (the truth value of `payload.start`) and the
      user's text, if any. */
  datatype Payload = Payload(start: bool, userText: Option<string>)

  /** The fields of the parsed body the handler reads; `history` is `None` when it is not an
      array. */
  datatype TurnRequest = TurnRequest(persona: Option<Persona>, mode: Option<string>,
                                     setting: Option<string>, payload: Option<Payload>,
                                     history: Option<seq<Message>>)

  /** `JSON.parse(event.body||'{}')`: the request, or the message of the error it throws. */
  datatype BodyParse = Parsed(request: TurnRequest) | Malformed(message: string)

  datatype Event = Event(httpMethod: string, body: BodyParse)

  /** The description a default persona gets when no `setting` is sent. */
  const DefaultSetting := "Freundlich, kurz."

  /** The persona built when the body has none. */
  function DefaultPersona(mode: Option<string>, setting: Option<string>): Persona {
    Persona(Some(DefaultName), Some(if mode == Some("freechat") then "Freechat" else ""),
            Some(OrDefault(setting, DefaultSetting)))
  }

  /** `body.persona || { name:'Chatpartner', tag: ..., desc: ... }`. */
  function PersonaOf(req: TurnRequest): Persona {
    if req.persona.Some? then req.persona.value else DefaultPersona(req.mode, req.setting)
  }

  /** `!!(body.payload && body.payload.start)`. */
  function StartOf(req: TurnRequest): bool {
    req.payload.Some? && req.payload.value.start
  }

  /** `body.payload?.userText ? String(body.payload.userText) : ''`. */
  function UserTextOf(req: TurnRequest): string {
    if req.payload.Some? && req.payload.value.userText.Some? then req.payload.value.userText.value else ""
  }

  /** `Array.isArray(body.history) ? body.history : []`. */
  function HistoryOf(req: TurnRequest): seq<Message> {
    req.history.GetOr([])
  }

  /** A request without a persona talks to `Chatpartner`, tagged `Freechat` exactly in
      free-chat mode, described by the setting or by the short default. */
  lemma DefaultPersonaFields(req: TurnRequest)
    requires req.persona.None?
    ensures PersonaName(PersonaOf(req)) == DefaultName
    ensures PersonaTag(PersonaOf(req)) == (if req.mode == Some("freechat") then "Freechat" else "")
    ensures req.setting.Some? && req.setting.value != "" ==> PersonaDesc(PersonaOf(req)) == req.setting.value
    ensures req.setting.None? || req.setting.value == "" ==> PersonaDesc(PersonaOf(req)) == DefaultSetting
    ensures (req.mode == Some("freechat")) <==> TagSuffix(PersonaTag(PersonaOf(req))) == " (Freechat)"
  {
  }

  /** `{ role:'character', name, text }`. */
  datatype CharacterMessage = CharacterMessage(role: string, name: string, text: string)

  /** The response body: plain text, the turn envelope (`memoryUpdates` is `None` where the
      deployment sends no such field) or the error envelope (`detail` is `None` for `null`). */
  datatype ResponseBody =
    | PlainText(text: string)
    | Turn(messages: seq<CharacterMessage>, choices: seq<string>, progress: int,
           memoryUpdates: Option<seq<Fact>>)
    | ErrorEnvelope(error: string, detail: Option<string>)

  datatype Response = Response(statusCode: int, headers: map<string, string>, body: ResponseBody)

  const JsonHeaders := map["Content-Type" := "application/json"]
  const TurnHeaders := map["Content-Type" := "application/json", "Cache-Control" := "no-store"]

  /** The 500 response for an error that reached the outer `catch`:
      `{ error: e.message, detail: e.detail||null }`. */
  function ErrorResponse(e: Error): (r: Response)
    ensures r.statusCode == 500 && r.body.ErrorEnvelope? && r.body.error == e.message
    ensures r.body.detail.Some? <==> e.detail.Some? && e.detail.value != ""
    ensures r.body.detail.Some? ==> r.body.detail == e.detail
  {
    Response(500, JsonHeaders,
             ErrorEnvelope(e.message, if e.detail.Some? && e.detail.value != "" then e.detail else None))
  }

  /** The reply call with its fallback: the `let reply` assigned in `try`, and once more in
      `catch` when the error allows it; any other error is rethrown. */
  method RequestReply(messages: seq<Message>, tokens: nat, complete: Request -> CallResult)
    returns (outcome: Result<string, Error>, calls: seq<Request>)
    ensures 1 <= |calls| <= 2
    ensures calls[0] == Request(PrimaryModel, messages, tokens)
    ensures |calls| == 2 <==>
      Completion(complete(calls[0])).Err? && FallbackEligible(Completion(complete(calls[0])).error)
    ensures |calls| == 2 ==> calls[1] == Request(FallbackModel, messages, tokens)
    ensures outcome == Completion(complete(calls[|calls| - 1]))
  {
    var primary := Request(PrimaryModel, messages, tokens);
    calls := [primary];
    outcome := Completion(complete(primary));
    if outcome.Err? && FallbackEligible(outcome.error) {
      var fallback := Request(FallbackModel, messages, tokens);
      calls := calls + [fallback];
      outcome := Completion(complete(fallback));
    }
  }

  /** What the memory step leaves in `memoryUpdates` for the answer of its call. */
  function MemoryFrom(answer: Result<string, Error>, parse: string -> Option<seq<Fact>>): seq<Fact> {
    if answer.Err? then []
    else
      match BracketSpan(answer.value)
      case None => []
      case Some(span) => parse(span).GetOr([])
  }

  /** The memory step is best effort: a failed call, an answer without a bracket span and a
      span that does not parse all leave no updates; otherwise the parsed facts are kept. */
  lemma MemoryBestEffort(answer: Result<string, Error>, parse: string -> Option<seq<Fact>>)
    ensures answer.Err? ==> MemoryFrom(answer, parse) == []
    ensures answer.Ok? && (forall i: nat, j: nat :: !SpanAt(answer.value, i, j)) ==>
      MemoryFrom(answer, parse) == []
    ensures answer.Ok? && BracketSpan(answer.value).Some? ==>
      var span := BracketSpan(answer.value).value;
      && span[0] == '[' && span[|span| - 1] == ']'
      && MemoryFrom(answer, parse) == parse(span).GetOr([])
  {
    if answer.Ok? {
      BracketSpanIsLeftmostLongest(answer.value);
    }
  }

  /** The memory step of `functions/ai.js`: when there is user text, one extraction call
      (no fallback), whose errors are swallowed. */
  method ExtractMemory(userText: string, concise: string, complete: Request -> CallResult,
                       parse: string -> Option<seq<Fact>>)
    returns (updates: seq<Fact>, calls: seq<Request>)
    ensures userText == "" ==> calls == [] && updates == []
    ensures userText != "" ==>
      && calls == [Request(PrimaryModel, MemoryMessages(userText, concise), MemoryTokens)]
      && updates == MemoryFrom(Completion(complete(calls[0])), parse)
  {
    updates := [];
    calls := [];
    if userText != "" {
      var request := Request(PrimaryModel, MemoryMessages(userText, concise), MemoryTokens);
      calls := [request];
      var answer := Completion(complete(request));
      if answer.Ok? {
        var span := BracketSpan(answer.value);
        if span.Some? {
          var parsed := parse(span.value);
          if parsed.Some? {
            updates := parsed.value;
          }
        }
      }
    }
  }

  /** What the handler does with the reply `reply` of the chat call: it is shortened, the
      memory call `memoryCalls` follows when the deployment extracts memory and there is user
      text, and the 200 envelope carries the one character message. */
  ghost predicate Delivered(v: Variant, persona: Persona, userText: string, reply: string,
                            complete: Request -> CallResult, parse: string -> Option<seq<Fact>>,
                            resp: Response, memoryCalls: seq<Request>)
  {
    var concise := LimitedReply(reply, DefaultMaxSentences);
    var memoryCall := v.extractsMemory && userText != "";
    && |memoryCalls| == (if memoryCall then 1 else 0)
    && (memoryCall ==>
          memoryCalls[0] == Request(PrimaryModel, MemoryMessages(userText, concise), MemoryTokens))
    && var updates :=
         if !v.extractsMemory then None
         else if memoryCall then Some(MemoryFrom(Completion(complete(memoryCalls[0])), parse))
         else Some([]);
    resp == Response(200, TurnHeaders,
      Turn([CharacterMessage("character", PersonaName(persona), concise)], [], TurnProgress, updates))
  }

  /** How many calls of a turn ask for the reply: two when the primary model was
      refused in a way that allows the fallback, one otherwise. */
  function ReplyCallCount(complete: Request -> CallResult, calls: seq<Request>): (n: nat)
    requires 1 <= |calls|
    ensures 1 <= n <= 2
  {
    var first := Completion(complete(calls[0]));
    if first.Err? && FallbackEligible(first.error) then 2 else 1
  }

  /** What the handler does with the message list `messages`: it is sent to the primary
      model, and to the fallback model when the primary is refused with a matching detail;
      an error left after that is the 500 response, and a reply is delivered. */
  ghost predicate Replied(v: Variant, persona: Persona, userText: string, messages: seq<Message>,
                          complete: Request -> CallResult, parse: string -> Option<seq<Fact>>,
                          resp: Response, calls: seq<Request>)
  {
    && 1 <= |calls|
    && calls[0] == Request(PrimaryModel, messages, v.replyTokens)
    && var n := ReplyCallCount(complete, calls);
    && n <= |calls|
    && (n == 2 ==> calls[1] == Request(FallbackModel, messages, v.replyTokens))
    && var outcome := Completion(complete(calls[n - 1]));
    && (outcome.Err? ==> |calls| == n && resp == ErrorResponse(outcome.error))
    && (outcome.Ok? ==>
          Delivered(v, persona, userText, outcome.value, complete, parse, resp, calls[n..]))
  }

  /** What the handler does with a parsed POST body: the message list built for the request
      is sent, and the reply is handled as above. */
  ghost predicate ServedTurn(v: Variant, req: TurnRequest, complete: Request -> CallResult,
                             parse: string -> Option<seq<Fact>>, resp: Response, calls: seq<Request>)
  {
    && 1 <= |calls|
    && IsPromptFor(calls[0].messages, v, PersonaOf(req), Some(HistoryOf(req)), UserTextOf(req), StartOf(req))
    && Replied(v, PersonaOf(req), UserTextOf(req), calls[0].messages, complete, parse, resp, calls)
  }

  /** The handler from the reply on: `limitSentences`, the memory step and the envelope. */
  method Deliver(v: Variant, persona: Persona, userText: string, reply: string,
                 complete: Request -> CallResult, parse: string -> Option<seq<Fact>>)
    returns (resp: Response, memoryCalls: seq<Request>)
    ensures Delivered(v, persona, userText, reply, complete, parse, resp, memoryCalls)
  {
    var concise := LimitSentences(reply, DefaultMaxSentences);
    var memoryUpdates: Option<seq<Fact>> := None;
    memoryCalls := [];
    if v.extractsMemory {
      var updates;
      updates, memoryCalls := ExtractMemory(userText, concise, complete, parse);
      memoryUpdates := Some(updates);
    }
    resp := Response(200, TurnHeaders,
      Turn([CharacterMessage("character", PersonaName(persona), concise)], [], TurnProgress, memoryUpdates));
  }

  /** The handler from the message list on: the reply call with its fallback, then the 500
      response or the delivery. */
  method Reply(v: Variant, persona: Persona, userText: string, messages: seq<Message>,
               complete: Request -> CallResult, parse: string -> Option<seq<Fact>>)
    returns (resp: Response, calls: seq<Request>)
    ensures 1 <= |calls| && calls[0].messages == messages
    ensures Replied(v, persona, userText, messages, complete, parse, resp, calls)
  {
    var reply;
    reply, calls := RequestReply(messages, v.replyTokens, complete);
    if reply.Err? {
      resp := ErrorResponse(reply.error);
      return;
    }
    var replyCalls := calls;
    var memoryCalls;
    resp, memoryCalls := Deliver(v, persona, userText, reply.value, complete, parse);
    calls := replyCalls + memoryCalls;
    assert calls[|replyCalls|..] == memoryCalls;
  }

  /** The `try` block of the handler after the body is parsed. */
  method ServeParsed(v: Variant, req: TurnRequest, complete: Request -> CallResult,
                     parse: string -> Option<seq<Fact>>)
    returns (resp: Response, calls: seq<Request>)
    ensures ServedTurn(v, req, complete, parse, resp, calls)
  {
    var persona, userText := PersonaOf(req), UserTextOf(req);
    var messages := BuildMessages(v, persona, Some(HistoryOf(req)), userText, StartOf(req));
    resp, calls := Reply(v, persona, userText, messages, complete, parse);
  }

  /** The 200 envelope of a turn: exactly one character message, spoken under `name`,
      whose text is at most 180 characters long and has no double line feed, no choices,
      progress 50, and `memoryUpdates` exactly when the deployment extracts memory. */
  predicate IsTurnEnvelope(resp: Response, name: string, withMemory: bool) {
    && resp.statusCode == 200 && resp.headers == TurnHeaders && resp.body.Turn?
    && |resp.body.messages| == 1
    && resp.body.messages[0].role == "character"
    && resp.body.messages[0].name == name
    && |resp.body.messages[0].text| <= MaxReplyLength
    && NoDoubleNewline(resp.body.messages[0].text)
    && resp.body.choices == [] && resp.body.progress == TurnProgress
    && (resp.body.memoryUpdates.Some? <==> withMemory)
  }

  /** A delivered reply is the 200 envelope, its text the shortened reply. The one memory
      call is made exactly by the memory deployment when there is user text; it asks about
      that text and the shortened reply, and `memoryUpdates` holds what it came to. */
  lemma DeliveredEnvelope(v: Variant, persona: Persona, userText: string, reply: string,
                          complete: Request -> CallResult, parse: string -> Option<seq<Fact>>,
                          resp: Response, memoryCalls: seq<Request>)
    requires Delivered(v, persona, userText, reply, complete, parse, resp, memoryCalls)
    ensures IsTurnEnvelope(resp, PersonaName(persona), v.extractsMemory)
    ensures resp.body.messages[0].text == LimitedReply(reply, DefaultMaxSentences)
    ensures |memoryCalls| <= 1
    ensures |memoryCalls| == 1 <==> v.extractsMemory && userText != ""
    ensures |memoryCalls| == 1 ==>
      && memoryCalls[0] == Request(PrimaryModel, MemoryMessages(userText, resp.body.messages[0].text), MemoryTokens)
      && resp.body.memoryUpdates == Some(MemoryFrom(Completion(complete(memoryCalls[0])), parse))
    ensures v.extractsMemory && userText == "" ==> resp.body.memoryUpdates == Some([])
  {
    LimitedReplyShape(reply, DefaultMaxSentences);
  }

  /** The calls of a turn: the primary model first; the fallback model at most once,
      second, only after a refusal that allows it, and with the same messages; at most one
      call after the reply calls. */
  lemma RepliedCalls(v: Variant, persona: Persona, userText: string, messages: seq<Message>,
                     complete: Request -> CallResult, parse: string -> Option<seq<Fact>>,
                     resp: Response, calls: seq<Request>)
    requires Replied(v, persona, userText, messages, complete, parse, resp, calls)
    ensures var n := ReplyCallCount(complete, calls);
      && n <= |calls| <= n + 1
      && calls[0] == Request(PrimaryModel, messages, v.replyTokens)
      && forall i :: 0 <= i < |calls| && calls[i].model == FallbackModel ==>
           i == 1 && n == 2 && calls[1] == Request(FallbackModel, messages, v.replyTokens)
  {
    LaterCalls(v, persona, userText, messages, complete, parse, resp, calls);
    ModelsDiffer();
  }

  /** What follows the reply calls is at most one call, to the primary model. */
  lemma LaterCalls(v: Variant, persona: Persona, userText: string, messages: seq<Message>,
                   complete: Request -> CallResult, parse: string -> Option<seq<Fact>>,
                   resp: Response, calls: seq<Request>)
    requires Replied(v, persona, userText, messages, complete, parse, resp, calls)
    ensures var n := ReplyCallCount(complete, calls);
      && |calls| <= n + 1
      && (|calls| == n + 1 ==> calls[n].model == PrimaryModel)
  {
    var n := ReplyCallCount(complete, calls);
    var outcome := Completion(complete(calls[n - 1]));
    if outcome.Ok? {
      DeliveredCalls(v, persona, userText, outcome.value, complete, parse, resp, calls[n..]);
    }
  }

  /** A delivery makes at most one call, to the primary model. */
  lemma DeliveredCalls(v: Variant, persona: Persona, userText: string, reply: string,
                       complete: Request -> CallResult, parse: string -> Option<seq<Fact>>,
                       resp: Response, memoryCalls: seq<Request>)
    requires Delivered(v, persona, userText, reply, complete, parse, resp, memoryCalls)
    ensures |memoryCalls| <= 1
    ensures |memoryCalls| == 1 ==> memoryCalls[0].model == PrimaryModel
  {
  }

  /** The answer of a turn: a 500 is the error envelope, sent exactly when the last reply
      call failed, and no call follows it; otherwise the turn answers with the 200 envelope,
      and a memory call follows exactly in the memory deployment when there is user text. */
  lemma RepliedStatus(v: Variant, persona: Persona, userText: string, messages: seq<Message>,
                      complete: Request -> CallResult, parse: string -> Option<seq<Fact>>,
                      resp: Response, calls: seq<Request>)
    requires Replied(v, persona, userText, messages, complete, parse, resp, calls)
    ensures var n := ReplyCallCount(complete, calls);
      && (resp.statusCode == 200 || resp.statusCode == 500)
      && (resp.statusCode == 500 <==> Completion(complete(calls[n - 1])).Err?)
      && (resp.statusCode == 500 ==> resp.body.ErrorEnvelope? && |calls| == n)
      && (resp.statusCode == 200 ==> IsTurnEnvelope(resp, PersonaName(persona), v.extractsMemory))
      && (|calls| > n <==> resp.statusCode == 200 && v.extractsMemory && userText != "")
  {
    var n := ReplyCallCount(complete, calls);
    var outcome := Completion(complete(calls[n - 1]));
    if outcome.Ok? {
      DeliveredEnvelope(v, persona, userText, outcome.value, complete, parse, resp, calls[n..]);
    }
  }

  /** A delivered reply is determined by its inputs. */
  lemma DeliveredIsDetermined(v: Variant, persona: Persona, userText: string, reply: string,
                              complete: Request -> CallResult, parse: string -> Option<seq<Fact>>,
                              resp1: Response, calls1: seq<Request>, resp2: Response, calls2: seq<Request>)
    requires Delivered(v, persona, userText, reply, complete, parse, resp1, calls1)
    requires Delivered(v, persona, userText, reply, complete, parse, resp2, calls2)
    ensures resp1 == resp2 && calls1 == calls2
  {
    if |calls1| == 1 {
      assert calls1 == [calls1[0]] && calls2 == [calls2[0]];
    }
  }

  /** Two traces that agree up to `n` and from `n` on are the same. */
  lemma SameTrace(a: seq<Request>, b: seq<Request>, n: nat)
    requires n <= |a| && n <= |b|
    requires a[..n] == b[..n] && a[n..] == b[n..]
    ensures a == b
  {
    assert a == a[..n] + a[n..];
    assert b == b[..n] + b[n..];
  }

  /** Two traces for the same message list agree on their reply calls. */
  lemma ReplyCallsAgree(v: Variant, persona: Persona, userText: string, messages: seq<Message>,
                        complete: Request -> CallResult, parse: string -> Option<seq<Fact>>,
                        resp1: Response, calls1: seq<Request>, resp2: Response, calls2: seq<Request>)
    requires Replied(v, persona, userText, messages, complete, parse, resp1, calls1)
    requires Replied(v, persona, userText, messages, complete, parse, resp2, calls2)
    ensures ReplyCallCount(complete, calls1) == ReplyCallCount(complete, calls2)
    ensures calls1[..ReplyCallCount(complete, calls1)] == calls2[..ReplyCallCount(complete, calls1)]
  {
    assert calls1[0] == calls2[0];
  }

  /** The reply calls and what follows them are determined by the message list and by
      what the service answers. */
  lemma RepliedIsDetermined(v: Variant, persona: Persona, userText: string, messages: seq<Message>,
                            complete: Request -> CallResult, parse: string -> Option<seq<Fact>>,
                            resp1: Response, calls1: seq<Request>, resp2: Response, calls2: seq<Request>)
    requires Replied(v, persona, userText, messages, complete, parse, resp1, calls1)
    requires Replied(v, persona, userText, messages, complete, parse, resp2, calls2)
    ensures resp1 == resp2 && calls1 == calls2
  {
    ReplyCallsAgree(v, persona, userText, messages, complete, parse, resp1, calls1, resp2, calls2);
    RestAgrees(v, persona, userText, messages, complete, parse, resp1, calls1, resp2, calls2);
    SameTrace(calls1, calls2, ReplyCallCount(complete, calls1));
  }

  /** Two traces that agree on their reply calls agree on the response and on the rest. */
  lemma RestAgrees(v: Variant, persona: Persona, userText: string, messages: seq<Message>,
                   complete: Request -> CallResult, parse: string -> Option<seq<Fact>>,
                   resp1: Response, calls1: seq<Request>, resp2: Response, calls2: seq<Request>)
    requires Replied(v, persona, userText, messages, complete, parse, resp1, calls1)
    requires Replied(v, persona, userText, messages, complete, parse, resp2, calls2)
    requires ReplyCallCount(complete, calls1) == ReplyCallCount(complete, calls2)
    requires calls1[..ReplyCallCount(complete, calls1)] == calls2[..ReplyCallCount(complete, calls1)]
    ensures var n := ReplyCallCount(complete, calls1);
      resp1 == resp2 && calls1[n..] == calls2[n..]
  {
    var n := ReplyCallCount(complete, calls1);
    assert calls1[n - 1] == calls1[..n][n - 1] && calls2[n - 1] == calls2[..n][n - 1];
    var outcome := Completion(complete(calls1[n - 1]));
    if outcome.Ok? {
      DeliveredIsDetermined(v, persona, userText, outcome.value, complete, parse,
                            resp1, calls1[n..], resp2, calls2[n..]);
    }
  }

  /** A served turn is determined by the request and by what the service answers: the
      response and the calls made are the only ones that meet the description. */
  lemma TurnIsDetermined(v: Variant, req: TurnRequest, complete: Request -> CallResult,
                         parse: string -> Option<seq<Fact>>,
                         resp1: Response, calls1: seq<Request>, resp2: Response, calls2: seq<Request>)
    requires ServedTurn(v, req, complete, parse, resp1, calls1)
    requires ServedTurn(v, req, complete, parse, resp2, calls2)
    ensures resp1 == resp2 && calls1 == calls2
  {
    var messages := calls1[0].messages;
    PromptIsDetermined(messages, calls2[0].messages, v, PersonaOf(req),
                       Some(HistoryOf(req)), UserTextOf(req), StartOf(req));
    RepliedIsDetermined(v, PersonaOf(req), UserTextOf(req), messages, complete, parse,
                        resp1, calls1, resp2, calls2);
  }

  /** `exports.handler(event)` of the deployment `v`. */
  method HandleTurn(v: Variant, event: Event, complete: Request -> CallResult,
                    parse: string -> Option<seq<Fact>>)
    returns (resp: Response, calls: seq<Request>)
    ensures event.httpMethod != "POST" ==>
      resp == Response(405, map[], PlainText("Method Not Allowed")) && calls == []
    ensures event.httpMethod == "POST" && event.body.Malformed? ==>
      resp == ErrorResponse(Error(event.body.message, None)) && calls == []
    ensures event.httpMethod == "POST" && event.body.Parsed? ==>
      ServedTurn(v, event.body.request, complete, parse, resp, calls)
  {
    if event.httpMethod != "POST" {
      return Response(405, map[], PlainText("Method Not Allowed")), [];
    }
    match event.body
    case Malformed(message) =>
      resp, calls := ErrorResponse(Error(message, None)), [];
    case Parsed(req) =>
      resp, calls := ServeParsed(v, req, complete, parse);
  }
}

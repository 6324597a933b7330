# Chat turn handlers

This project models the two serverless chat-turn handlers of the chat application:

- `functions/ai.js` answers with a short reply and extracts facts about the user;
- `ai.js.js` answers with a short reply and extracts nothing.

The handler of either file gets a POST body that holds:

- a persona (name, tag, description);
- the chat history;
- the user's text, or a flag that starts the chat.

From these it builds the message list. It asks the completion service for a reply, and asks the
fallback model once more when the primary model is refused with a detail that contains the text
`model` (case-sensitive) or `not permitted`. It then shortens the reply to at most two sentence chunks and 180 characters. The memory deployment also asks for one lasting fact about the user and selects the JSON
array in that answer. Finally the handler answers with a JSON envelope, or with a 500 error envelope.

The two files are near-duplicates, so they are modelled once. A `Prompt.Variant` value tells them
apart:

- `Prompt.WithMemory` is `functions/ai.js`: short style rules, 110 reply tokens, memory step.
- `Prompt.ReplyOnly` is `ai.js.js`: the longer rule list, 120 reply tokens, no memory step.

Modules:

- `Wrappers`: `Option` and `Result`.
- `JsString`: the JavaScript string built-ins used:
  - `trim` with ECMAScript whitespace;
  - `includes`;
  - `join`;
  - the global replace of `\n{2,}`.

  A Dafny `char` is one Unicode scalar value, while JavaScript's `length` counts UTF-16
  code units. The two agree for text inside the Basic Multilingual Plane, so every length
  bound and cut here (180, 177) is JavaScript's only for such text.
- `Sentences`: `limitSentences`.
  - The split at `/([.!?])\s+/` keeps the captured terminator.
  - The reduce is written as the loop it is (`ReducePieces`), proved equal to the sentence chunks.
- `Prompt`: `systemPromptForPersona` and `buildMessages`.
- `Memory`: `memoryExtractorPrompt` and the match of `/\[[\s\S]*\]/`.
- `ChatTurn`: `callOpenAI` seen as a result, the fallback rule, request normalisation, the memory
  step and `exports.handler`.

How the environment enters the model:

- The completion service is the parameter `complete: Request -> CallResult`. What one call comes to
  is one of:
  - the answer content;
  - a non-ok status with its body text;
  - a thrown failure with its message.

  Every method of `ChatTurn` returns the list `calls` of requests it sent.
- `JSON.parse` of the memory span is the parameter `parse`, which returns `None` when parsing throws.
- `JSON.parse` of the request body enters as a `BodyParse` value in the event. A missing or
  empty body is parsed as `'{}'` (`event.body||'{}'`, `functions/ai.js:69`), so it is
  `Parsed(TurnRequest(None, None, None, None, None))`. A body that
  parses to a number, a string or a boolean has no fields, so it is
  `Parsed(TurnRequest(None, None, None, None, None))` and is served with the default persona,
  as `functions/ai.js:70-73` does.
- The handler's behaviour is described by three layered predicates:
  - `ChatTurn.ServedTurn` covers the message list;
  - `ChatTurn.Replied` covers the reply calls and the fallback;
  - `ChatTurn.Delivered` covers shortening, the memory call and the envelope.

  The methods are proved to meet them, and the lemmas about the predicates state what a turn does.

The source files use CRLF line ends. JavaScript template literals normalise these to LF, so the
prompts here contain `\n`.

## Model

| member | source | states |
|---|---|---|
| JsString.IsSpace | functions/ai.js:47-48 | the characters `\s` matches and `trim` removes: ECMAScript's WhiteSpace and LineTerminator code points |
| JsString.TrimStart | functions/ai.js:48 | `trimStart` never lengthens a string; `JsString.TrimStartShape` states what it removes |
| JsString.TrimEnd | functions/ai.js:48 | `trimEnd` never lengthens a string; `JsString.TrimEndShape` states what it removes |
| JsString.TrimStartShape | functions/ai.js:48 | `trimStart` removes exactly the leading whitespace: the result is a suffix of the input that does not start with whitespace, and everything before it is whitespace |
| JsString.TrimEndShape | functions/ai.js:48 | `trimEnd` removes exactly the trailing whitespace: the result is a prefix of the input that does not end with whitespace, and everything after it is whitespace |
| JsString.Includes | functions/ai.js:79 | `s.includes(sub)`; `JsString.IncludesIffOccurs` states its meaning |
| JsString.Join | functions/ai.js:51 | `parts.join(sep)`; `JsString.JoinStartsWithFirst` and `JsString.JoinWithBlankKeepsText` state its properties |
| JsString.Trim | functions/ai.js:48 | `s.trim()` is `trimEnd` after `trimStart` and never lengthens a string; `JsString.TrimStartShape` and `JsString.TrimEndShape` state exactly what each removes |
| JsString.TrimShape | functions/ai.js:48 | the trimmed string neither starts nor ends with whitespace |
| JsString.TrimKeepsText | functions/ai.js:48 | trimming deletes whitespace only; the rest of the text survives in order |
| JsString.IncludesIffOccurs | functions/ai.js:79 | `includes` holds exactly when the substring occurs at some index |
| JsString.CollapseNewlines | functions/ai.js:53 | the replace of `\n{2,}` by `\n` leaves no two consecutive line feeds, never lengthens and keeps the first character |
| JsString.CollapseIdentity | functions/ai.js:53 | a string without a double line feed is left unchanged |
| JsString.CollapseKeepsText | functions/ai.js:53 | collapsing keeps all non-whitespace text, in order |
| JsString.CollapseKeepsOthers | functions/ai.js:53 | collapsing deletes line feeds and nothing else: with every `\n` removed, input and output are equal |
| JsString.CollapseRun | functions/ai.js:53 | a maximal run of `n >= 1` line feeds collapses exactly as one line feed: the text before it and the text after it are collapsed on their own |
| JsString.CollapseNewlineAfter | functions/ai.js:53 | a line feed after text that does not end with one is kept as it is |
| JsString.RunBecomesOne | functions/ai.js:53 | each maximal run of `n >= 1` line feeds becomes exactly one line feed, and the text on either side is collapsed on its own |
| Sentences.SplitAtBoundaries | functions/ai.js:47 | `text.split(/([.!?])\s+/)`: an odd number of pieces, the text between boundaries alternating with the captured terminators; `Sentences.ChunksAreReduced` relates it to the chunks |
| Sentences.SentenceChunks | functions/ai.js:47-50 | the trimmed sentence chunks, at least one; `Sentences.ChunksKeepText`, `Sentences.ChunksEndWithTerminator` and `Sentences.ChunksOfJoin` state their properties |
| Sentences.ReducedAt | functions/ai.js:48 | what the reduce callback pushes at the even index `2j`: `(arr[2j] + (arr[2j+1] \|\| '')).trim()`; `Sentences.ReducePieces` pushes exactly these |
| Sentences.Reduced | functions/ai.js:47-50 | everything the reduce pushes, one entry per even index, so `(n + 1) / 2` entries for a split of odd length `n`; `Sentences.ChunksAreReduced` equates it with the chunks |
| Sentences.Take | functions/ai.js:51 | `parts.slice(0, maxSentences)`: a prefix of the chunks of length `min(maxSentences, n)` |
| Sentences.Kept | functions/ai.js:51 | `parts.slice(0, maxSentences).join(' ')`; `Sentences.KeptInOrder` states what text it keeps |
| Sentences.LimitedReply | functions/ai.js:46-54 | the value `limitSentences` returns; `Sentences.LimitSentences` computes it and `Sentences.LimitedReplyShape` states its bounds |
| Sentences.FirstBoundaryIsFirst | functions/ai.js:47 | the split finds the leftmost terminator followed by whitespace, or there is none |
| Sentences.SpaceRunShape | functions/ai.js:47 | the `\s+` consumed after a terminator is whitespace and maximal |
| Sentences.ChunksAreReduced | functions/ai.js:47-50 | the reduce over the split with its capture groups yields exactly the trimmed sentence chunks |
| Sentences.ReducePieces | functions/ai.js:47-50 | the reduce loop pushes, for each even index, that piece plus the captured terminator, trimmed |
| Sentences.LimitSentences | functions/ai.js:46-54 | `limitSentences` returns the first chunks joined with one blank, cut to 177 characters plus `…` when over 180, with line-feed runs collapsed; in `ai.js.js` the same at lines 58-66 |
| Sentences.LimitedReplyShape | functions/ai.js:51-53 | the result is at most 180 characters and has no double line feed; an overlong join gives at most 178 characters ending with `…`; in `ai.js.js` the same at lines 63-65 |
| Sentences.ShortReplyUnchanged | functions/ai.js:51-53 | a join that fits and has no double line feed is returned as it is |
| Sentences.ChunksKeepText | functions/ai.js:47-50 | apart from whitespace, the chunks in order spell the whole reply |
| Sentences.ChunksEndWithTerminator | functions/ai.js:47-48 | every chunk but the last ends with one of `.!?` |
| Sentences.HeadEndsWithTerminator | functions/ai.js:47-48 | the chunk cut off before the boundary at `k` ends with the terminator `s[k]` that the split captured there |
| Sentences.KeptInOrder | functions/ai.js:51 | at most `maxSentences` chunks are kept; their text is a prefix of the reply's text, and all of it when there are no more chunks; in `ai.js.js` the same at line 63 |
| Sentences.LongFirstSentenceTruncated | functions/ai.js:52-53 | a reply whose first sentence runs past 180 characters is its first 177 characters, trimmed, plus `…`, with line-feed runs then collapsed |
| Sentences.ChunksOfJoin | functions/ai.js:47-50 | sentences joined with blanks are chunked back into exactly those sentences, where a sentence starts with no whitespace, ends with one of `.!?` and has no `.!?` followed by whitespace before that |
| Sentences.SentencesKept | functions/ai.js:46-54 | of sentences, as in `Sentences.ChunksOfJoin`, joined with blanks, the first `maxSentences` come back joined the same way when they fit and hold no line feed |
| Sentences.FirstTwoOfThree | functions/ai.js:46-54 | of three short sentences the default limit keeps the first two |
| Sentences.GreetingExample | functions/ai.js:46-54 | `"Hallo! Es sind 3.5 Grad. Wie geht's dir heute?"` becomes `"Hallo! Es sind 3.5 Grad."`: the point inside `3.5` ends no sentence |
| Prompt.SystemPrompt | functions/ai.js:6-17 | `systemPromptForPersona`; `Prompt.PromptLayout` states its layout |
| Prompt.PersonaTag | functions/ai.js:8 | `persona?.tag \|\| ''` is the tag as sent, or empty when it is missing |
| Prompt.PersonaName | functions/ai.js:7 | the name is never empty and is `Chatpartner` when missing or empty |
| Prompt.PersonaDesc | functions/ai.js:9 | the description is never empty and is the fixed default when missing or empty |
| Prompt.TagSuffix | functions/ai.js:10 | the ` (tag)` suffix is empty exactly when the tag is |
| Prompt.IntroLineShape | functions/ai.js:10 | the first line is `Du bist <name>.`, with ` (<tag>)` before the period only when there is a tag |
| Prompt.PromptLayout | functions/ai.js:6-17 | the prompt opens with the name and the optional tag, has the description right after the intro line and its line feed, and ends with the deployment's rules; in `ai.js.js` the same at lines 8-25 |
| Prompt.LastEntries | functions/ai.js:21 | `history.slice(-20)` gives the last `min(20, n)` entries, unchanged |
| Prompt.BuildMessages | functions/ai.js:19-25 | one system message, then the last 20 history entries, then the greeting request on start, or else the user's text when non-empty; in `ai.js.js` the same at lines 27-33 |
| Prompt.PromptBounds | functions/ai.js:19-25 | the list starts with the one system message and holds at most 22 messages; with no start and no text only history follows |
| Prompt.TrailingTurn | functions/ai.js:22-23 | at most one user turn follows the history |
| Prompt.PromptListing | functions/ai.js:19-25 | the list is exactly system message, then the history window, then the trailing turn |
| Prompt.PromptIsDetermined | functions/ai.js:19-25 | only one list meets that description |
| Memory.MemoryExtractorPrompt | functions/ai.js:57-64 | `memoryExtractorPrompt`; `Memory.MemoryPromptLayout` states its layout |
| Memory.BracketSpan | functions/ai.js:94 | `s.match(/\[[\s\S]*\]/)`; `Memory.BracketSpanIsLeftmostLongest` states which span it is |
| Memory.MemoryPromptLayout | functions/ai.js:57-64 | the extraction prompt opens with the instructions and quotes the user's text and the shortened reply verbatim, the reply last |
| Memory.MemoryMessages | functions/ai.js:88-91 | the extraction call sends one system and one user message, the latter the extraction prompt |
| Memory.FirstIndexIsFirst | functions/ai.js:94 | the first `[` found has no `[` before it |
| Memory.LastIndexIsLast | functions/ai.js:94 | the last `]` found has no `]` after it |
| Memory.BracketSpanIsLeftmostLongest | functions/ai.js:94 | `/\[[\s\S]*\]/` matches exactly when some `[` has a `]` after it, from the leftmost `[` to the last `]`, and contains every other bracket span |
| Memory.BracketSpanOfArray | functions/ai.js:94 | an answer that opens with `[` and closes with `]` matches as a whole |
| ChatTurn.Completion | functions/ai.js:41-43 | what `callOpenAI` returns or throws: the trimmed content, the `OpenAI error` with the body as detail, or the failure's message; `ChatTurn.RefusalFallback` states the refusal case |
| ChatTurn.FallbackEligible | functions/ai.js:79 | the fallback test on `e.detail`; `ChatTurn.FallbackEligibleIff` states its meaning |
| ChatTurn.DefaultPersona | functions/ai.js:70 | the persona built when the body has none; `ChatTurn.DefaultPersonaFields` states its fields |
| ChatTurn.PersonaOf | functions/ai.js:70 | `body.persona \|\| <default>`; `ChatTurn.DefaultPersonaFields` states the default case |
| ChatTurn.StartOf | functions/ai.js:71 | `!!(body.payload && body.payload.start)`; by `Prompt.BuildMessages` the trailing turn is the greeting request when it holds, and the user's text, if any, otherwise |
| ChatTurn.UserTextOf | functions/ai.js:72 | the user's text or `''`; `ChatTurn.DeliveredEnvelope` states that the memory call depends on it |
| ChatTurn.HistoryOf | functions/ai.js:73 | the history when it is an array, `[]` otherwise; `Prompt.BuildMessages` sends its last 20 entries |
| ChatTurn.MemoryFrom | functions/ai.js:94-96 | what the memory step leaves in `memoryUpdates`; `ChatTurn.MemoryBestEffort` states its cases |
| ChatTurn.Delivered | functions/ai.js:82-108 | what the handler does once it has a reply; `ChatTurn.Deliver` meets it and `ChatTurn.DeliveredEnvelope` states the envelope |
| ChatTurn.Replied | functions/ai.js:77-110 | what the handler does with a message list; `ChatTurn.Reply` meets it and `ChatTurn.RepliedStatus` and `ChatTurn.RepliedCalls` state its outcome and calls |
| ChatTurn.ServedTurn | functions/ai.js:69-110 | what the handler does with a parsed body; `ChatTurn.ServeParsed` meets it and `ChatTurn.TurnIsDetermined` states that it has one solution |
| ChatTurn.ModelsDiffer | functions/ai.js:3-4 | the fallback model differs from the primary |
| ChatTurn.ErrorResponse | functions/ai.js:109-110 | a caught error becomes a 500 carrying its message, with its detail or `null` when the detail is missing or empty; in `ai.js.js` the same at lines 101-107 |
| ChatTurn.FallbackEligibleIff | functions/ai.js:79 | the fallback is allowed exactly when the error detail contains the text `model` (case-sensitive) or `not permitted`; an error without detail never qualifies |
| ChatTurn.RefusalFallback | functions/ai.js:41 | a refused call is an error whose detail is the response body, retried exactly when that body contains the text `model` (case-sensitive) or `not permitted` |
| ChatTurn.RequestReply | functions/ai.js:77-80 | the primary call first; exactly one fallback call, with the same messages, exactly when the primary error allows it; the outcome is that of the last call; in `ai.js.js` the same at lines 79-88 |
| ChatTurn.DefaultPersonaFields | functions/ai.js:70 | without a persona the name is `Chatpartner`, the tag is `Freechat` exactly in free-chat mode, and the description is the setting or `Freundlich, kurz.`; in `ai.js.js` the same at line 72 |
| ChatTurn.MemoryBestEffort | functions/ai.js:85-97 | a failed call, an answer without a bracket span and a span that does not parse all leave no updates; otherwise the parsed facts are kept |
| ChatTurn.ExtractMemory | functions/ai.js:86-97 | without user text no call is made and the updates are empty; with it, one extraction call to the primary model with 120 tokens, and the updates that call comes to |
| ChatTurn.ReplyCallCount | functions/ai.js:77-80 | one or two calls ask for the reply |
| ChatTurn.Deliver | functions/ai.js:82-108 | the shortened reply, then the memory step in the memory deployment, then the 200 envelope |
| ChatTurn.Reply | functions/ai.js:77-110 | the reply calls; an error left after them is the 500 response, and a reply is delivered |
| ChatTurn.ServeParsed | functions/ai.js:70-108 | the message list built from the normalised request is what the reply calls send |
| ChatTurn.DeliveredEnvelope | functions/ai.js:99-108 | a delivered reply is the 200 envelope with one `character` message under the persona's name, the shortened text, no choices and progress 50; the memory call happens exactly in the memory deployment with user text, and its result is `memoryUpdates`; in `ai.js.js` the same at lines 92-100 |
| ChatTurn.DeliveredCalls | functions/ai.js:92 | a delivery makes at most one call, to the primary model |
| ChatTurn.LaterCalls | functions/ai.js:77-97 | at most one call follows the reply calls, and it goes to the primary model |
| ChatTurn.RepliedCalls | functions/ai.js:77-80 | the primary model is called first; the fallback model at most once, second, only after a qualifying refusal and with the same messages |
| ChatTurn.RepliedStatus | functions/ai.js:99-110 | the answer is 200 or 500; 500 exactly when the last reply call failed, with no call after it; 200 is the turn envelope; in `ai.js.js` the same at lines 92-107 |
| ChatTurn.DeliveredIsDetermined | functions/ai.js:82-108 | what a delivery sends and answers is determined by its inputs |
| ChatTurn.ReplyCallsAgree | functions/ai.js:77-80 | two turns on the same message list make the same reply calls |
| ChatTurn.RestAgrees | functions/ai.js:77-110 | two turns with the same reply calls give the same response and the same later calls |
| ChatTurn.RepliedIsDetermined | functions/ai.js:77-110 | the calls and the response are determined by the message list and by what the service answers |
| ChatTurn.TurnIsDetermined | functions/ai.js:66-112 | a served turn is determined by the request and by what the service answers |
| ChatTurn.HandleTurn | functions/ai.js:66-112 | a non-POST request is answered 405 with no call; a body that does not parse is a 500 with its message and no detail; a parsed body is a served turn; in `ai.js.js` the same at lines 68-108 |

## Left out

- `callOpenAI` transport: the fetch, its headers and the API key from `process.env` are the `complete` parameter. What a call comes to is one of the three `CallResult` cases.
- Sampling parameters (temperature, frequency and presence penalties) are floats sent to the remote model, and they do not affect the handler's control flow.
- `JSON.parse` and `JSON.stringify`:
  - the request body enters already parsed, as `BodyParse`;
  - the response bodies are datatypes, not serialised JSON;
  - the memory span's parse is the `parse` parameter.
- `ChatTurn.MemoryFrom`: parsed JSON that is not an array of `{key, value}` objects is not modelled. The source would store whatever value the span parses to.
- A request body that parses to `null` is not modelled. The source answers it with a 500 from the `TypeError` thrown by `body.persona`.
- Non-string field values are not modelled: a persona whose fields are numbers, `String()` applied to a non-string `userText`, and history entries that are not `{role, content}`. Fields are strings or missing.
- An answer whose content is not a string is not modelled. The source's `trim` would throw on it.
- Characters outside the Basic Multilingual Plane, such as most emoji, are one `char` here and two UTF-16 code units in JavaScript. For text holding them, the 180-unit bound and the 177-unit cut of `Sentences.LimitedReply` count differently from the source, and cutting a surrogate pair in half at 177 is not modelled.
- `functions/env.js` is not part of this model. It only passes environment variables through.
- The wording of the German prompts is kept as data. Only their structure is proved.
- Asynchrony and concurrency are not modelled: a turn is one sequential run.

/** `systemPromptForPersona` and `buildMessages`: the system prompt that casts the model as
    the persona, and the message list sent for one chat turn. */
module Prompt {
  import opened Wrappers
  import opened JsString

  /** What tells the two deployments of the handler apart: the style rules that close the
      system prompt, the token budget of the reply and whether a fact about the user is
      extracted after the reply. */
  datatype Variant = Variant(styleRules: string, replyTokens: nat, extractsMemory: bool)

  /** A chat message `{ role, content }`, as sent to the completion service. */
  datatype Message = Message(role: string, content: string)

  /** The persona object of a request. A field the client left out is `None`; JavaScript
      treats it like the empty string, since both are falsy. */
  datatype Persona = Persona(name: Option<string>, tag: Option<string>, desc: Option<string>)

  const DefaultName := "Chatpartner"
  const DefaultDescription := "Freundlicher, natürlicher Chatstil. Kurz, klar, jugendfreundlich."
  /** The user turn sent instead of the user's text when a chat starts. */
  const GreetingRequest := "Starte mit einer sehr kurzen, charaktertypischen Begrüßung."
  /** How many of the latest history entries are sent along (`history.slice(-20)`). */
  const HistoryWindow := 20

  /** `field || fallback` for a string field that may be missing. */
  function OrDefault(field: Option<string>, fallback: string): string {
    if field.Some? && field.value != "" then field.value else fallback
  }

  /** `persona?.name || 'Chatpartner'`: never empty. */
  function PersonaName(p: Persona): (r: string)
    ensures r != ""
    ensures p.name.None? || p.name.value == "" ==> r == DefaultName
    ensures p.name.Some? && p.name.value != "" ==> r == p.name.value
  {
    OrDefault(p.name, DefaultName)
  }

  /** `persona?.tag || ''`: an empty tag stays empty, so this is the tag as sent, or
      empty when it is missing. */
  function PersonaTag(p: Persona): (r: string)
    ensures r == p.tag.GetOr("")
  {
    OrDefault(p.tag, "")
  }

  /** `persona?.desc || <default description>`: never empty. */
  function PersonaDesc(p: Persona): (r: string)
    ensures r != ""
    ensures p.desc.None? || p.desc.value == "" ==> r == DefaultDescription
    ensures p.desc.Some? && p.desc.value != "" ==> r == p.desc.value
  {
    OrDefault(p.desc, DefaultDescription)
  }

  /** `tag ? ` (${tag})` : ''`. */
  function TagSuffix(tag: string): (r: string)
    ensures tag == "" <==> r == ""
  {
    if tag == "" then "" else " (" + tag + ")"
  }

  /** `functions/ai.js`: short WhatsApp-style rules, 110 reply tokens, memory extraction. */
  const WithMemory := Variant(
    "Schreibe wie in WhatsApp: natürlich, ohne Sternchen/Regieanweisungen.\n"
    + "Antworte KURZ: maximal 1–2 Sätze, höchstens ~160 Zeichen.\n"
    + "Dein Tonfall, Wortwahl und Emoji-Gebrauch soll klar zu deiner Rolle passen.\n"
    + "Jugendsicher, respektvoll.",
    110, true)

  /** `ai.js.js`: the longer rule list, 120 reply tokens, no memory step. */
  const ReplyOnly := Variant(
    "Dein Schreibstil soll sich klar von anderen Charakteren unterscheiden.\n"
    + "Passe Wortwahl, Tonfall, Emoji-Nutzung, Satzbau und Anrede an deine Rolle an.\n"
    + "\n"
    + "ANTWORTREGELN:\n"
    + "- Antworte wie in einem WhatsApp-Chat.\n"
    + "- Keine Sternchen oder Regieanweisungen.\n"
    + "- 1–2 Sätze, max. ~160 Zeichen.\n"
    + "- Natürlich, deutsch, im Charakterton.\n"
    + "- Optional eine Gegenfrage, wenn passend.\n"
    + "- Jugendsicher, respektvoll.",
    120, false)

  /** The first line of the prompt: `Du bist <name>< (tag)>.` */
  function IntroLine(p: Persona): string {
    "Du bist " + PersonaName(p) + TagSuffix(PersonaTag(p)) + "."
  }

  /** The second line: the character description. */
  function DescriptionLine(p: Persona): string {
    "Charakterbeschreibung: " + PersonaDesc(p)
  }

  /** `systemPromptForPersona(persona)`. */
  function SystemPrompt(v: Variant, p: Persona): string {
    IntroLine(p) + "\n" + DescriptionLine(p) + "\n\n" + v.styleRules
  }

  /** The first line with its line feed: the name, then the tag in parentheses only when
      there is one. */
  lemma IntroLineShape(p: Persona)
    ensures var name, tag := PersonaName(p), PersonaTag(p);
      && (tag == "" ==> IntroLine(p) + "\n" == "Du bist " + name + "." + "\n")
      && (tag != "" ==> IntroLine(p) + "\n" == "Du bist " + name + (" (" + tag + ")") + "." + "\n")
  {
    var opening := "Du bist " + PersonaName(p);
    if PersonaTag(p) == "" {
      assert opening + "" == opening;
    }
  }

  /** The prompt introduces the persona by name, with the tag in parentheses only when
      there is one, describes it on the second line and ends with the deployment's rules. */
  lemma PromptLayout(v: Variant, p: Persona)
    ensures var prompt, name, tag := SystemPrompt(v, p), PersonaName(p), PersonaTag(p);
      && ("Du bist " + name) <= prompt
      && (tag == "" ==> ("Du bist " + name + "." + "\n") <= prompt)
      && (tag != "" ==> ("Du bist " + name + (" (" + tag + ")") + "." + "\n") <= prompt)
      && OccursAt(prompt, DescriptionLine(p) + "\n\n", |IntroLine(p)| + 1)
      && prompt[|prompt| - |v.styleRules|..] == v.styleRules
  {
    var prompt, head := SystemPrompt(v, p), IntroLine(p) + "\n";
    ConcatLayout(head, DescriptionLine(p), "\n\n", v.styleRules);
    assert head <= prompt;
    assert ("Du bist " + PersonaName(p)) <= head by {
      ConcatLayout("Du bist " + PersonaName(p), TagSuffix(PersonaTag(p)), ".", "\n");
    }
    IntroLineShape(p);
  }

  /** `h.slice(-20)`: the last 20 entries, or all of them when there are fewer. */
  function LastEntries(h: seq<Message>): (r: seq<Message>)
    ensures |r| == if |h| < HistoryWindow then |h| else HistoryWindow
    ensures r == h[|h| - |r|..]
  {
    if |h| < HistoryWindow then h else h[|h| - HistoryWindow..]
  }

  /** What `buildMessages` must return: the system prompt, then the latest history entries
      unchanged and in order, then the greeting request when the chat starts, or else the
      user's text when there is any. */
  predicate IsPromptFor(msgs: seq<Message>, v: Variant, persona: Persona,
                        history: Option<seq<Message>>, userText: string, start: bool)
  {
    var h := if history.Some? then history.value else [];
    var k := if |h| < HistoryWindow then |h| else HistoryWindow;
    var trailing := start || userText != "";
    && |msgs| == 1 + k + (if trailing then 1 else 0)
    && msgs[0] == Message("system", SystemPrompt(v, persona))
    && msgs[1..1 + k] == h[|h| - k..]
    && (start ==> msgs[|msgs| - 1] == Message("user", GreetingRequest))
    && (!start && userText != "" ==> msgs[|msgs| - 1] == Message("user", userText))
  }

  /** `buildMessages({ persona, history, userText, start })`; `history` is `None` when it
      is not an array. */
  method BuildMessages(v: Variant, persona: Persona, history: Option<seq<Message>>,
                       userText: string, start: bool) returns (msgs: seq<Message>)
    ensures IsPromptFor(msgs, v, persona, history, userText, start)
  {
    msgs := [Message("system", SystemPrompt(v, persona))];
    if history.Some? {
      msgs := msgs + LastEntries(history.value);
    }
    if start {
      msgs := msgs + [Message("user", GreetingRequest)];
    } else if userText != "" {
      msgs := msgs + [Message("user", userText)];
    }
  }

  /** The message list opens with the one system message and holds at most 22 messages;
      with no start and no text nothing follows the history. */
  lemma PromptBounds(msgs: seq<Message>, v: Variant, persona: Persona,
                     history: Option<seq<Message>>, userText: string, start: bool)
    requires IsPromptFor(msgs, v, persona, history, userText, start)
    ensures 1 <= |msgs| <= HistoryWindow + 2
    ensures msgs[0].role == "system"
    ensures !start && userText == "" ==>
      msgs[1..] == LastEntries(if history.Some? then history.value else [])
  {
    PromptListing(msgs, v, persona, history, userText, start);
  }

  /** The turn that follows the history: the greeting request when the chat starts, the
      user's text when there is any, nothing otherwise. */
  function TrailingTurn(userText: string, start: bool): (r: seq<Message>)
    ensures |r| <= 1
  {
    if start then [Message("user", GreetingRequest)]
    else if userText != "" then [Message("user", userText)]
    else []
  }

  /** A list of `1 + |middle| + |tail|` entries, at most one of them in `tail`, that
      starts with `first`, continues with `middle` and ends with the entry of `tail`. */
  lemma ListingOf<T>(s: seq<T>, first: T, middle: seq<T>, tail: seq<T>)
    requires |tail| <= 1 && |s| == 1 + |middle| + |tail|
    requires s[0] == first && s[1..1 + |middle|] == middle
    requires |tail| == 1 ==> s[|s| - 1] == tail[0]
    ensures s == [first] + middle + tail
  {
    assert s == [s[0]] + s[1..1 + |middle|] + s[1 + |middle|..];
    assert s[1 + |middle|..] == tail;
  }

  /** The description pins the message list down: the system prompt, the last 20 history
      entries and the trailing turn, in this order. */
  lemma PromptListing(msgs: seq<Message>, v: Variant, persona: Persona,
                      history: Option<seq<Message>>, userText: string, start: bool)
    requires IsPromptFor(msgs, v, persona, history, userText, start)
    ensures msgs == [Message("system", SystemPrompt(v, persona))]
                    + LastEntries(if history.Some? then history.value else [])
                    + TrailingTurn(userText, start)
  {
    var h := if history.Some? then history.value else [];
    ListingOf(msgs, Message("system", SystemPrompt(v, persona)), LastEntries(h),
              TrailingTurn(userText, start));
  }

  /** So it is met by exactly one list. */
  lemma PromptIsDetermined(a: seq<Message>, b: seq<Message>, v: Variant, persona: Persona,
                           history: Option<seq<Message>>, userText: string, start: bool)
    requires IsPromptFor(a, v, persona, history, userText, start)
    requires IsPromptFor(b, v, persona, history, userText, start)
    ensures a == b
  {
    PromptListing(a, v, persona, history, userText, start);
    PromptListing(b, v, persona, history, userText, start);
  }
}

/** The memory step of `functions/ai.js`: the prompt that asks the model for one lasting
    fact about the user, and the selection of the JSON array in its answer, which is what
    `/\[[\s\S]*\]/` matches: from the first `[` to the last `]` after it. */
module Memory {
  import opened Wrappers
  import opened JsString
  import opened Prompt

  /** One remembered fact, `{ key, value }`. */
  datatype Fact = Fact(key: string, value: string)

  /** The system message of the extraction call. */
  const ExtractorRole := "Du bist ein knapper JSON-Extraktor."
  /** The instructions, up to where the user's text is filled in. */
  const ExtractorIntro :=
    "Extrahiere aus dem folgenden kurzen Dialog maximal 1 langlebige, nützliche Tatsache über den Nutzer (wenn vorhanden).\n"
    + "Gib ein JSON-Array von Objekten: [{\"key\":\"...\",\"value\":\"...\"}] oder [].\n"
    + "Bevorzuge stabile Präferenzen (z.B. mag X, wohnt in Y, Ziel Z).\n"
    + "\n"
    + "Nutzer: "
  /** What separates the user's text from the reply. */
  const AnswerLabel := "\nAntwort: "

  /** `memoryExtractorPrompt(userText, assistantText)`; both arguments are strings here, so
      `|| ''` leaves them as they are. */
  function MemoryExtractorPrompt(userText: string, assistantText: string): string {
    ExtractorIntro + userText + AnswerLabel + assistantText
  }

  /** The prompt opens with the instructions, quotes the user's text right after them and
      ends with the reply, both verbatim. */
  lemma MemoryPromptLayout(userText: string, assistantText: string)
    ensures var r := MemoryExtractorPrompt(userText, assistantText);
      && ExtractorIntro <= r
      && OccursAt(r, userText + AnswerLabel, |ExtractorIntro|)
      && r[|r| - |assistantText|..] == assistantText
  {
    ConcatLayout(ExtractorIntro, userText, AnswerLabel, assistantText);
  }

  /** The two messages of the extraction call. */
  function MemoryMessages(userText: string, reply: string): (r: seq<Message>)
    ensures |r| == 2 && r[0].role == "system" && r[1].role == "user"
    ensures r[1].content == MemoryExtractorPrompt(userText, reply)
  {
    [Message("system", ExtractorRole), Message("user", MemoryExtractorPrompt(userText, reply))]
  }

  /** The first index at or after `from` that holds `c`. */
  function FirstIndexFrom(s: string, c: char, from: nat): (r: Option<nat>)
    ensures r.Some? ==> from <= r.value < |s| && s[r.value] == c
    decreases |s| - from
  {
    if from >= |s| then None
    else if s[from] == c then Some(from)
    else FirstIndexFrom(s, c, from + 1)
  }

  lemma {:induction false} FirstIndexIsFirst(s: string, c: char, from: nat)
    ensures FirstIndexFrom(s, c, from).Some? ==>
      forall k :: from <= k < FirstIndexFrom(s, c, from).value ==> s[k] != c
    ensures FirstIndexFrom(s, c, from).None? ==> forall k :: from <= k < |s| ==> s[k] != c
    decreases |s| - from
  {
    if from < |s| && s[from] != c {
      FirstIndexIsFirst(s, c, from + 1);
    }
  }

  /** The last index below `end` that holds `c`. */
  function LastIndexBefore(s: string, c: char, end: nat): (r: Option<nat>)
    requires end <= |s|
    ensures r.Some? ==> r.value < end && s[r.value] == c
  {
    if end == 0 then None
    else if s[end - 1] == c then Some(end - 1)
    else LastIndexBefore(s, c, end - 1)
  }

  lemma {:induction false} LastIndexIsLast(s: string, c: char, end: nat)
    requires end <= |s|
    ensures LastIndexBefore(s, c, end).Some? ==>
      forall k :: LastIndexBefore(s, c, end).value < k < end ==> s[k] != c
    ensures LastIndexBefore(s, c, end).None? ==> forall k :: 0 <= k < end ==> s[k] != c
  {
    if end > 0 && s[end - 1] != c {
      LastIndexIsLast(s, c, end - 1);
    }
  }

  /** `s[i..j]` with `i < j` is a match of `/\[[\s\S]*\]/`: it opens with `[` and closes
      with `]`, and anything may lie between. */
  predicate SpanAt(s: string, i: nat, j: nat) {
    i < j < |s| && s[i] == '[' && s[j] == ']'
  }

  /** `s.match(/\[[\s\S]*\]/)`: the matched text, or `None` for `null`. */
  function BracketSpan(s: string): Option<string> {
    var open, close := FirstIndexFrom(s, '[', 0), LastIndexBefore(s, ']', |s|);
    if open.Some? && close.Some? && open.value < close.value then Some(s[open.value..close.value + 1])
    else None
  }

  /** The regular expression matches exactly when some `[` has a `]` after it; the match
      starts at the leftmost such `[` and, the `*` being greedy, ends at the last `]`. */
  lemma BracketSpanIsLeftmostLongest(s: string)
    ensures BracketSpan(s).None? <==> forall i: nat, j: nat :: !SpanAt(s, i, j)
    ensures BracketSpan(s).Some? ==>
      var i, j := FirstIndexFrom(s, '[', 0).value, LastIndexBefore(s, ']', |s|).value;
      && SpanAt(s, i, j)
      && BracketSpan(s).value == s[i..j + 1]
      && forall i': nat, j': nat :: SpanAt(s, i', j') ==> i <= i' && j' <= j
  {
    FirstIndexIsFirst(s, '[', 0);
    LastIndexIsLast(s, ']', |s|);
    var open, close := FirstIndexFrom(s, '[', 0), LastIndexBefore(s, ']', |s|);
    forall i: nat, j: nat | SpanAt(s, i, j)
      ensures open.Some? && open.value <= i
      ensures close.Some? && j <= close.value
    {
      assert s[i] == '[' && s[j] == ']';
    }
    if BracketSpan(s).Some? {
      assert SpanAt(s, open.value, close.value);
    }
  }

  /** The match of an answer that is exactly a JSON array is the whole answer. */
  lemma BracketSpanOfArray(s: string)
    requires |s| >= 2 && s[0] == '[' && s[|s| - 1] == ']'
    ensures BracketSpan(s) == Some(s)
  {
    assert s[..|s|] == s;
  }
}
